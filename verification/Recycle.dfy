/** One recycle pass over a workload's pods, against any answers of the apiserver (internal/workload/patcher.go). */
module Recycle {
  import opened Common
  import opened Resources
  import opened Plan

  datatype ResizeAnswer = ResizeAccepted | ResizeInvalid | ResizeGone | ResizeFailed

  /** An accepted eviction, a pod already gone, one a disruption budget blocks, or any other failure. */
  datatype EvictAnswer = EvictAccepted | EvictGone | EvictBlocked | EvictFailed

  /** What a pass did and saw, in order; pods are named by their place in the pass's list. */
  datatype Event =
    | Cancelled
    | Resize(pod: nat, sidecars: bool, resizeAnswer: ResizeAnswer)
    | Evict(pod: nat, evictAnswer: EvictAnswer)
    | Listed(pods: seq<Pod>)
    | ListFailed
    | TimedOut

  type Trace = seq<Event>

  /**
   * The apiserver and the clock: each answer may depend on everything that happened before it. `list` answers `None`
   * for a failed List, and `delay` is how much longer than the poll interval a poll took.
   */
  datatype Api = Api(
    cancelled: Trace -> bool,
    resize: (Trace, nat, bool) -> ResizeAnswer,
    evict: (Trace, nat) -> EvictAnswer,
    list: Trace -> Option<seq<Pod>>,
    delay: Trace -> nat)

  /** Nothing comes between event `k` and the one before it at which the pass looks whether it was cancelled. */
  predicate Follows(t: Trace, k: nat)
    requires k < |t|
  {
    k > 0 &&
    match t[k]
    case Resize(i, _, _) => t[k - 1].Resize? && t[k - 1].pod == i
    case Evict(i, _) => t[k - 1].Resize? && t[k - 1].pod == i
    case Listed(_) => !t[k - 1].Listed?
    case ListFailed => !t[k - 1].Listed?
    case _ => true
  }

  /**
   * Event `k` is what the apiserver and the clock answered once everything before it had happened, the pass not having
   * been cancelled by then.
   */
  ghost predicate AnsweredAt(t: Trace, api: Api, k: nat)
    requires k < |t|
  {
    && (api.cancelled(t[..k]) ==> t[k].Cancelled? || t[k].TimedOut? || Follows(t, k))
    && match t[k]
       case Cancelled => api.cancelled(t[..k])
       case Resize(i, sidecars, answer) => answer == api.resize(t[..k], i, sidecars)
       case Evict(i, answer) => answer == api.evict(t[..k], i)
       case Listed(pods) => api.list(t[..k]) == Some(pods)
       case ListFailed => api.list(t[..k]) == None
       case TimedOut => true
  }

  ghost predicate Answered(t: Trace, api: Api) {
    forall k :: 0 <= k < |t| ==> AnsweredAt(t, api, k)
  }

  lemma AnsweredNext(t: Trace, e: Event, api: Api)
    requires Answered(t, api) && AnsweredAt(t + [e], api, |t|)
    ensures Answered(t + [e], api)
  {
    var t' := t + [e];
    forall k | 0 <= k < |t'| ensures AnsweredAt(t', api, k) {
      if k < |t| {
        assert t'[..k] == t[..k] && AnsweredAt(t, api, k) && Follows(t', k) == Follows(t, k);
      }
    }
  }

  /** The clock once `n` listings have been looked at, from the start of a wait that follows `t`. */
  function Clock(api: Api, t: Trace, d: Trace, n: nat, interval: int): int
    requires 1 <= n <= |d|
  {
    if n == 1 then api.delay(t + d[..0]) else Clock(api, t, d, n - 1, interval) + interval + api.delay(t + d[..n - 1])
  }

  lemma ClockOfPrefix(api: Api, t: Trace, d: Trace, more: Trace, n: nat, interval: int)
    requires 1 <= n <= |d|
    ensures Clock(api, t, d + more, n, interval) == Clock(api, t, d, n, interval)
  {
    assert (d + more)[..n - 1] == d[..n - 1];
    if n > 1 {
      ClockOfPrefix(api, t, d, more, n - 1, interval);
    }
  }

  datatype Error = ApiError | CrashLoop | Replacement

  datatype Settings = Settings(
    inPlace: bool, tolerance: Tolerance, ignoreSafeToEvict: bool, readyTimeout: int, pollInterval: int)

  predicate Countable(pod: Pod) {
    !pod.deleting && !pod.phase.Succeeded? && !pod.phase.Failed?
  }

  predicate Progressing(pod: Pod) {
    && !pod.deleting
    && !pod.phase.Succeeded? && !pod.phase.Failed?
    && (pod.phase.Pending? || !(pod.phase.Running? && Ready in pod.conditions))
  }

  /** A listed pod is the evicted one by its UID, or by its name when the UID is unknown. */
  predicate IsEvicted(pod: Pod, evicted: Pod) {
    if evicted.uid != "" then pod.uid == evicted.uid else pod.name == evicted.name
  }

  /** The evicted pod is gone, no pod is on its way up and none crash-loops. */
  predicate Quiescent(pods: seq<Pod>, evicted: Pod) {
    forall p | p in pods :: !p.crashLooping && !IsEvicted(p, evicted) && !Progressing(p)
  }

  /** What must end a pass's evictions. */
  predicate Halts(e: Event) {
    match e
    case Cancelled => true
    case ListFailed => true
    case TimedOut => true
    case Listed(pods) => exists p | p in pods :: p.crashLooping
    case Resize(_, _, _) => false
    case Evict(_, _) => false
  }

  /** Countable, not stale, and crash-looping. */
  predicate UpdatedCrashLooping(pod: Pod, recs: Recommendation, tol: Tolerance) {
    Countable(pod) && pod.crashLooping && !PlanOf(pod, recs, tol).Stale()
  }

  const INFEASIBLE: string := "Infeasible"
  const DEFERRED: string := "Deferred"
  const ERROR: string := "Error"

  /** The first pending resize's reason. */
  function FirstPending(conditions: seq<Condition>): Option<string> {
    if conditions == [] then None
    else if conditions[0].ResizePending? then Some(conditions[0].reason)
    else FirstPending(conditions[1..])
  }

  /** `FirstPending` before anything else; of the conditions in progress only `ERROR` is looked for. */
  function Verdict(pod: Pod): string {
    var pending := FirstPending(pod.conditions);
    if pending.Some? then pending.value
    else if ResizeInProgress(ERROR) in pod.conditions then ERROR else ""
  }

  method ResizePendingReason(pod: Pod) returns (reason: string)
    ensures reason == Verdict(pod)
  {
    var errored := false;
    var cs := pod.conditions;
    for i := 0 to |cs|
      invariant FirstPending(cs) == FirstPending(cs[i..])
      invariant errored <==> ResizeInProgress(ERROR) in cs[..i]
    {
      var c := cs[i];
      assert cs[..i + 1] == cs[..i] + [c];
      if c.ResizePending? {
        return c.reason;
      }
      errored := errored || c == ResizeInProgress(ERROR);
    }
    assert cs[..|cs|] == cs;
    reason := if errored then ERROR else "";
  }

  /** Some regular or sidecar container is `Staged`. */
  predicate StagedRequests(pod: Pod) {
    || (exists c | c in pod.containers :: Staged(pod, c))
    || (exists c | c in pod.initContainers :: c.sidecar && Staged(pod, c))
  }

  predicate Staged(pod: Pod, c: Container) {
    c.name !in pod.enacted || !SameRequests(c.resources, pod.enacted[c.name])
  }

  predicate Changes(cs: seq<Container>, init: bool, recs: Recommendation) {
    exists i :: 0 <= i < |cs| && Counts(cs[i], init) && Writes(cs, recs, i)
  }

  predicate WriteCounts(w: ContainerWrite, cs: seq<Container>, init: bool) {
    w.init == init && w.index < |cs| && Counts(cs[w.index], init)
  }

  /** Carries out on `cs` the writes among `ws` to its containers that count, and names those containers. */
  method Patched(cs: seq<Container>, init: bool, ws: seq<ContainerWrite>, ghost target: seq<Container>)
    returns (out: seq<Container>, names: seq<string>)
    requires |target| == |cs|
    requires forall w :: w in ws && WriteCounts(w, cs, init) ==> target[w.index] == cs[w.index].(resources := w.resources)
    requires forall i :: 0 <= i < |cs| && target[i] != cs[i] ==> exists w :: w in ws && WriteCounts(w, cs, init) && w.index == i
    ensures out == target
    ensures names != [] <==> exists w :: w in ws && WriteCounts(w, cs, init)
  {
    out, names := cs, [];
    for k := 0 to |ws|
      invariant |out| == |cs|
      invariant forall i :: 0 <= i < |cs| ==> out[i] == cs[i] || out[i] == target[i]
      invariant forall j :: 0 <= j < k && WriteCounts(ws[j], cs, init) ==> out[ws[j].index] == target[ws[j].index]
      invariant names != [] <==> exists j :: 0 <= j < k && WriteCounts(ws[j], cs, init)
    {
      var w := ws[k];
      assert w in ws;
      if w.init == init && w.index < |cs| && Counts(cs[w.index], init) {
        out := out[w.index := cs[w.index].(resources := w.resources)];
        names := names + [w.name];
      }
    }
    assert forall i :: 0 <= i < |cs| ==> out[i] == target[i];
  }

  lemma WritesReachTarget(pod: Pod, init: bool, recs: Recommendation, ws: seq<ContainerWrite>)
    requires ws == WritesTo(pod.containers, false, recs, |pod.containers|) +
                   WritesTo(pod.initContainers, true, recs, |pod.initContainers|)
    ensures var cs := if init then pod.initContainers else pod.containers;
            var target := AppliedTo(cs, init, recs);
            && (forall w :: w in ws && WriteCounts(w, cs, init) ==> target[w.index] == cs[w.index].(resources := w.resources))
            && (forall i :: 0 <= i < |cs| && target[i] != cs[i] ==>
                  exists w :: w in ws && WriteCounts(w, cs, init) && w.index == i)
            && (Changes(cs, init, recs) <==> exists w :: w in ws && WriteCounts(w, cs, init))
  {
    var cs := if init then pod.initContainers else pod.containers;
    WritesToMeaning(pod.containers, false, recs, |pod.containers|);
    WritesToMeaning(pod.initContainers, true, recs, |pod.initContainers|);
    forall i | 0 <= i < |cs| && Counts(cs[i], init) && Writes(cs, recs, i)
      ensures WriteOf(cs, init, recs, i) in ws && WriteCounts(WriteOf(cs, init, recs, i), cs, init)
    {
      assert WriteOf(cs, init, recs, i) in WritesTo(cs, init, recs, |cs|);
    }
  }

  /** The lists of `ResizedPod`, and which of the containers in each changed. */
  method Resized(pod: Pod, recs: Recommendation)
    returns (containers: seq<Container>, initContainers: seq<Container>, regular: seq<string>, sidecars: seq<string>)
    ensures containers == AppliedTo(pod.containers, false, recs)
    ensures initContainers == AppliedTo(pod.initContainers, true, recs)
    ensures regular != [] <==> Changes(pod.containers, false, recs)
    ensures sidecars != [] <==> Changes(pod.initContainers, true, recs)
  {
    var inj := Inject(pod.containers, pod.initContainers, false, recs);
    WritesReachTarget(pod, false, recs, inj.writes);
    WritesReachTarget(pod, true, recs, inj.writes);
    containers, regular := Patched(pod.containers, false, inj.writes, AppliedTo(pod.containers, false, recs));
    initContainers, sidecars := Patched(pod.initContainers, true, inj.writes, AppliedTo(pod.initContainers, true, recs));
  }

  /** A plan of no change leaves nothing to resize. */
  lemma NoChangeLeavesNothing(pod: Pod, recs: Recommendation, tol: Tolerance)
    requires PlanOf(pod, recs, tol).change.NoChange?
    ensures var clamped := PlanOf(pod, recs, tol).recs;
            !Changes(pod.containers, false, clamped) && !Changes(pod.initContainers, true, clamped)
  {
    var clamped := PlanOf(pod, recs, tol).recs;
    LargestChangeMeaning(pod.containers, false, clamped, |pod.containers|);
    LargestChangeMeaning(pod.initContainers, true, clamped, |pod.initContainers|);
    NothingWritten(pod.containers, false, clamped);
    NothingWritten(pod.initContainers, true, clamped);
  }

  lemma NothingWritten(cs: seq<Container>, init: bool, recs: Recommendation)
    requires forall i :: 0 <= i < |cs| ==> ChangeAt(cs, init, recs, i) == NoChange
    ensures !Changes(cs, init, recs)
  {
    forall i | 0 <= i < |cs| ensures !(Counts(cs[i], init) && Writes(cs, recs, i)) {
      WriteChanges(cs, init, recs, i);
    }
  }

  lemma WriteChanges(cs: seq<Container>, init: bool, recs: Recommendation, i: nat)
    requires i < |cs|
    ensures ChangeAt(cs, init, recs, i) == NoChange ==> !(Counts(cs[i], init) && Writes(cs, recs, i))
  {
  }

  // ---- Evictions ----

  /** Whether the pass may evict `pod` at all: not one annotated against it, unless the Policy ignores that. */
  predicate Evictable(pod: Pod, ignoreSafeToEvict: bool) {
    ignoreSafeToEvict || !pod.safeToEvictFalse
  }

  /** Holds back an eviction of a pod annotated against it, and every eviction of a halted pass. */
  method SubmitEviction(pod: Pod, i: nat, ignoreSafeToEvict: bool, halted: bool, api: Api, t: Trace)
    returns (answer: Option<EvictAnswer>, err: Option<Error>)
    ensures answer == if Evictable(pod, ignoreSafeToEvict) && !halted then Some(api.evict(t, i)) else None
    ensures err == if Evictable(pod, ignoreSafeToEvict) && halted then Some(CrashLoop)
                   else if answer == Some(EvictFailed) then Some(ApiError) else None
  {
    if !ignoreSafeToEvict && pod.safeToEvictFalse {
      return None, None;
    }
    if halted {
      return None, Some(CrashLoop);
    }
    var submitted := api.evict(t, i);
    if submitted == EvictFailed {
      return Some(submitted), Some(ApiError);
    }
    return Some(submitted), None;
  }

  predicate Waits(e: Event) {
    e.Listed? || e.ListFailed? || e.TimedOut? || e.Cancelled?
  }

  /** How one listing answers the wait: a crash-looping pod, or whether the evicted pod is gone and how many progress. */
  method Inspect(pods: seq<Pod>, evicted: Pod) returns (crashed: bool, gone: bool, pending: nat)
    ensures crashed <==> Halts(Listed(pods))
    ensures !crashed ==> (gone && pending == 0 <==> Quiescent(pods, evicted))
  {
    crashed, gone, pending := false, true, 0;
    for k := 0 to |pods|
      invariant !crashed
      invariant forall p | p in pods[..k] :: !p.crashLooping
      invariant gone <==> forall p | p in pods[..k] :: !IsEvicted(p, evicted)
      invariant pending == 0 <==> forall p | p in pods[..k] :: IsEvicted(p, evicted) || !Progressing(p)
    {
      var p := pods[k];
      assert pods[..k + 1] == pods[..k] + [p];
      if p.crashLooping {
        return true, gone, pending;
      }
      if IsEvicted(p, evicted) {
        gone := false;
      } else if Progressing(p) {
        pending := pending + 1;
      }
    }
    assert pods[..|pods|] == pods;
  }

  /** A listing that neither halts the pass nor shows the workload quiescent. */
  predicate EndsNothing(e: Event, evicted: Pod) {
    e.Listed? && !Halts(e) && !Quiescent(e.pods, evicted)
  }

  /** The listings looked at so far, one a poll, none of which took the wait past its time. */
  ghost predicate Waiting(t: Trace, d: Trace, now: int, evicted: Pod, s: Settings, api: Api) {
    && Answered(t + d, api) && (d != [] ==> !api.cancelled(t + d))
    && (forall e :: e in d ==> EndsNothing(e, evicted))
    && (forall n :: 1 <= n <= |d| ==> Clock(api, t, d, n, s.pollInterval) <= s.readyTimeout)
    && now == if d == [] then 0 else Clock(api, t, d, |d|, s.pollInterval) + s.pollInterval
  }

  /** A listing is answered like any event, after an eviction or after a listing that ended nothing. */
  lemma ListingNext(t: Trace, d: Trace, now: int, evicted: Pod, s: Settings, api: Api)
    requires Waiting(t, d, now, evicted, s, api) && t != [] && t[|t| - 1].Evict?
    ensures var listed := api.list(t + d);
            var e := if listed.None? then ListFailed else Listed(listed.value);
            && Answered(t + (d + [e]), api)
            && Clock(api, t, d + [e], |d| + 1, s.pollInterval) == now + api.delay(t + d)
            && (forall n :: 1 <= n <= |d| ==> Clock(api, t, d + [e], n, s.pollInterval) <= s.readyTimeout)
  {
    var listed := api.list(t + d);
    var e := if listed.None? then ListFailed else Listed(listed.value);
    WaitingNext(t, d, e, now, evicted, s, api);
    ListingFollows(t, d, e, api);
    Appended(t, d, e, api);
  }

  lemma ListingFollows(t: Trace, d: Trace, e: Event, api: Api)
    requires t != [] && t[|t| - 1].Evict? && (forall w :: w in d ==> Waits(w)) && (d != [] ==> !api.cancelled(t + d))
    requires e == if api.list(t + d).None? then ListFailed else Listed(api.list(t + d).value)
    ensures (t + d + [e])[..|t + d|] == t + d && AnsweredAt(t + d + [e], api, |t + d|)
  {
    assert (t + d + [e])[..|t + d|] == t + d;
    if d == [] {
      assert (t + d + [e])[|t + d| - 1] == t[|t| - 1];
    }
  }

  lemma WaitingNext(t: Trace, d: Trace, e: Event, now: int, evicted: Pod, s: Settings, api: Api)
    requires Waiting(t, d, now, evicted, s, api)
    ensures Clock(api, t, d + [e], |d| + 1, s.pollInterval) == now + api.delay(t + d)
    ensures forall n :: 1 <= n <= |d| ==> Clock(api, t, d + [e], n, s.pollInterval) <= s.readyTimeout
  {
    assert (d + [e])[..|d|] == d;
    forall n | 1 <= n <= |d| ensures Clock(api, t, d + [e], n, s.pollInterval) == Clock(api, t, d, n, s.pollInterval) {
      ClockOfPrefix(api, t, d, [e], n, s.pollInterval);
    }
  }

  /** How a wait of `d` ended: at the first listing past its time if not before, and at none that was not. */
  ghost predicate TimedRight(t: Trace, d: Trace, s: Settings, api: Api)
    requires d != []
  {
    && (forall n :: 1 <= n < |d| - 1 ==> Clock(api, t, d, n, s.pollInterval) <= s.readyTimeout)
    && (d[|d| - 1].TimedOut? ==> |d| > 1)
    && (|d| > 1 ==> (d[|d| - 1].TimedOut? <==> Clock(api, t, d, |d| - 1, s.pollInterval) > s.readyTimeout))
  }

  /** A wait of `d`, as the apiserver answered: quiescent at its last listing, or ended by the first event that halts. */
  ghost predicate Waited(t: Trace, d: Trace, failed: bool, evicted: Pod, s: Settings, api: Api) {
    && d != [] && Answered(t + d, api) && TimedRight(t, d, s, api)
    && (forall j :: 0 <= j < |d| - 1 ==> EndsNothing(d[j], evicted)) && Waits(d[|d| - 1])
    && (failed <==> Halts(d[|d| - 1]))
    && (!failed ==> d[|d| - 1].Listed? && Quiescent(d[|d| - 1].pods, evicted))
    && (d[|d| - 1].TimedOut? || d[|d| - 1].Cancelled? ==> |d| > 1 && EndsNothing(d[|d| - 2], evicted))
  }

  /** A listing ends a wait: a pod of it crash-loops, or the evicted one is gone and every other live one is ready. */
  ghost predicate EndsWait(pods: seq<Pod>, evicted: Pod) {
    || (exists p :: p in pods && p.crashLooping)
    || (forall p :: p in pods ==>
          && (if evicted.uid == "" then p.name != evicted.name else p.uid != evicted.uid)
          && (p.deleting || p.phase.Succeeded? || p.phase.Failed? || (p.phase.Running? && Ready in p.conditions)))
  }

  /**
   * A wait ends at the first listing that ends one, at the first that fails, or after one for want of time or of a pass,
   * and ends well only at a listing in which nothing crash-loops.
   */
  lemma WaitEndsExactly(t: Trace, d: Trace, failed: bool, evicted: Pod, s: Settings, api: Api)
    requires Waited(t, d, failed, evicted, s, api)
    ensures d != [] && forall j :: 0 <= j < |d| - 1 ==> d[j].Listed? && !EndsWait(d[j].pods, evicted)
    ensures var last := d[|d| - 1];
            && ((last.Listed? && EndsWait(last.pods, evicted)) || last.ListFailed? || last.TimedOut? || last.Cancelled?)
            && (failed <==> !last.Listed? || exists p :: p in last.pods && p.crashLooping)
  {
  }

  /**
   * Consumes listings one by one until `Inspect` calls one final, a List fails, the pass is cancelled or the time is
   * over.
   */
  method WaitForReplacement(evicted: Pod, s: Settings, api: Api, t: Trace) returns (err: Option<Error>, d: Trace)
    requires s.pollInterval > 0 && Answered(t, api) && t != [] && t[|t| - 1].Evict?
    ensures Waited(t, d, err.Some?, evicted, s, api)
  {
    d := [];
    var now := 0;
    assert t + d == t;
    while true
      invariant Waiting(t, d, now, evicted, s, api)
      decreases s.readyTimeout - now
    {
      ListingNext(t, d, now, evicted, s, api);
      now := now + api.delay(t + d);
      var listed := api.list(t + d);
      if listed.None? {
        WaitEndsAtListing(t, d, ListFailed, true, evicted, s, api);
        return Some(Replacement), d + [ListFailed];
      }
      var pods := listed.value;
      var crashed, gone, pending := Inspect(pods, evicted);
      if crashed {
        WaitEndsAtListing(t, d, Listed(pods), true, evicted, s, api);
        return Some(CrashLoop), d + [Listed(pods)];
      }
      if gone && pending == 0 {
        WaitEndsAtListing(t, d, Listed(pods), false, evicted, s, api);
        return None, d + [Listed(pods)];
      }
      d := d + [Listed(pods)];
      if now > s.readyTimeout {
        WaitEnds(t, d, TimedOut, evicted, s, api);
        return Some(Replacement), d + [TimedOut];
      }
      if api.cancelled(t + d) {
        WaitEnds(t, d, Cancelled, evicted, s, api);
        return Some(Replacement), d + [Cancelled];
      }
      WaitGoesOn(t, d, now, evicted, s, api);
      now := now + s.pollInterval;
    }
  }

  lemma WaitGoesOn(t: Trace, d: Trace, now: int, evicted: Pod, s: Settings, api: Api)
    requires d != [] && Answered(t + d, api) && !api.cancelled(t + d) && (forall e :: e in d ==> EndsNothing(e, evicted))
    requires now == Clock(api, t, d, |d|, s.pollInterval) <= s.readyTimeout
    requires forall n :: 1 <= n < |d| ==> Clock(api, t, d, n, s.pollInterval) <= s.readyTimeout
    ensures Waiting(t, d, now + s.pollInterval, evicted, s, api)
  {
  }

  lemma WaitEndsAtListing(t: Trace, d: Trace, e: Event, failed: bool, evicted: Pod, s: Settings, api: Api)
    requires (forall w :: w in d ==> EndsNothing(w, evicted)) && Answered(t + (d + [e]), api)
    requires forall n :: 1 <= n <= |d| ==> Clock(api, t, d + [e], n, s.pollInterval) <= s.readyTimeout
    requires (e.Listed? || e.ListFailed?) && (failed <==> Halts(e)) && (!failed ==> e.Listed? && Quiescent(e.pods, evicted))
    ensures Waited(t, d + [e], failed, evicted, s, api)
  {
  }

  lemma Appended(t: Trace, d: Trace, e: Event, api: Api)
    requires Answered(t + d, api)
    requires (t + d + [e])[..|t + d|] == t + d && AnsweredAt(t + d + [e], api, |t + d|)
    ensures Answered(t + (d + [e]), api)
  {
    AnsweredNext(t + d, e, api);
    assert t + d + [e] == t + (d + [e]);
  }

  /** After a listing that ends nothing, the wait ends for want of time or of a pass. */
  lemma WaitEnds(t: Trace, d: Trace, e: Event, evicted: Pod, s: Settings, api: Api)
    requires (forall w :: w in d ==> EndsNothing(w, evicted)) && d != [] && Answered(t + d, api)
    requires e.TimedOut? || (e.Cancelled? && api.cancelled(t + d))
    requires forall n :: 1 <= n < |d| ==> Clock(api, t, d, n, s.pollInterval) <= s.readyTimeout
    requires e.TimedOut? <==> Clock(api, t, d, |d|, s.pollInterval) > s.readyTimeout
    ensures Waited(t, d + [e], true, evicted, s, api)
  {
    assert (t + d + [e])[..|t + d|] == t + d;
    Appended(t, d, e, api);
    forall n | 1 <= n <= |d| ensures Clock(api, t, d + [e], n, s.pollInterval) == Clock(api, t, d, n, s.pollInterval) {
      ClockOfPrefix(api, t, d, [e], n, s.pollInterval);
    }
  }

  // ---- In-place resizes ----

  /** What makes a pod, its regular resize rejected or none left to submit, call for an eviction instead. */
  predicate CallsForEviction(pod: Pod, recs: Recommendation, rejected: bool) {
    if Changes(pod.containers, false, recs) then rejected
    else !Changes(pod.initContainers, true, recs) && Verdict(pod) in {INFEASIBLE, ERROR} && StagedRequests(pod)
  }

  /** What happened to one pod: the answers to the requests submitted for it, in this order. */
  datatype Outcome = Outcome(regular: Option<ResizeAnswer>, sidecars: Option<ResizeAnswer>, evict: Option<EvictAnswer>) {
    function Events(i: nat): Trace {
      (if regular.Some? then [Resize(i, false, regular.value)] else []) +
      (if sidecars.Some? then [Resize(i, true, sidecars.value)] else []) +
      (if evict.Some? then [Evict(i, evict.value)] else [])
    }

    predicate Resized() {
      regular == Some(ResizeAccepted) || sidecars == Some(ResizeAccepted)
    }

    predicate Failed() {
      regular == Some(ResizeFailed) || evict == Some(EvictFailed)
    }
  }

  /** What the apiserver answered to each request of `o` once everything before it had happened. */
  predicate OutcomeAnswered(o: Outcome, i: nat, api: Api, t: Trace) {
    && (o.regular.Some? ==> o.regular.value == api.resize(t, i, false))
    && (o.sidecars.Some? ==> o.sidecars.value == api.resize(t + o.(sidecars := None, evict := None).Events(i), i, true))
    && (o.evict.Some? ==> o.evict.value == api.evict(t + o.(evict := None).Events(i), i))
  }

  lemma OutcomeFollows(o: Outcome, i: nat, api: Api, t: Trace)
    requires Answered(t, api) && OutcomeAnswered(o, i, api, t) && !api.cancelled(t)
    ensures Answered(t + o.Events(i), api)
  {
    var none := Outcome(None, None, None);
    assert t + none.Events(i) == t;
    var first := o.(sidecars := None, evict := None);
    EventFollows(t, none.Events(i), if o.regular.Some? then [Resize(i, false, o.regular.value)] else [], api);
    assert first.Events(i) == none.Events(i) + if o.regular.Some? then [Resize(i, false, o.regular.value)] else [];
    var second := o.(evict := None);
    EventFollows(t, first.Events(i), if o.sidecars.Some? then [Resize(i, true, o.sidecars.value)] else [], api);
    assert second.Events(i) == first.Events(i) + if o.sidecars.Some? then [Resize(i, true, o.sidecars.value)] else [];
    EventFollows(t, second.Events(i), if o.evict.Some? then [Evict(i, o.evict.value)] else [], api);
    assert o.Events(i) == second.Events(i) + if o.evict.Some? then [Evict(i, o.evict.value)] else [];
  }

  lemma EventFollows(t: Trace, before: Trace, more: Trace, api: Api)
    requires Answered(t + before, api) && |more| <= 1
    requires more != [] ==> (t + before + more)[..|t + before|] == t + before ==> AnsweredAt(t + before + more, api, |t + before|)
    ensures Answered(t + (before + more), api)
  {
    if more == [] {
      assert before + more == before;
    } else {
      assert more == [more[0]];
      assert (t + before + more)[..|t + before|] == t + before;
      Appended(t, before, more[0], api);
    }
  }

  /** The pod as the pass holds it afterwards. */
  function After(pod: Pod, recs: Recommendation, o: Outcome): Pod {
    var staged := o.regular.Some? && !o.regular.value.ResizeInvalid?;
    pod.(containers := if staged then AppliedTo(pod.containers, false, recs) else pod.containers,
         initContainers := if o.sidecars == Some(ResizeAccepted) then AppliedTo(pod.initContainers, true, recs)
                           else pod.initContainers)
  }

  /** With nothing left to submit: evicts the pod when what is staged on it changes a request and cannot complete. */
  method EvictUnsatisfiable(pod: Pod, i: nat, mayEvict: bool, ignoreSafeToEvict: bool, halted: bool, api: Api, t: Trace)
    returns (answer: Option<EvictAnswer>, err: Option<Error>)
    ensures var staged := mayEvict && Verdict(pod) in {"Infeasible", "Error"} && StagedRequests(pod);
            && (answer.Some? <==> staged && Evictable(pod, ignoreSafeToEvict) && !halted)
            && err == if staged && Evictable(pod, ignoreSafeToEvict) && halted then Some(CrashLoop)
                      else if answer == Some(EvictFailed) then Some(ApiError) else None
    ensures answer.Some? ==> answer.value == api.evict(t, i)
  {
    var verdict := ResizePendingReason(pod);
    if (verdict == INFEASIBLE || verdict == ERROR) && mayEvict && StagedRequests(pod) {
      answer, err := SubmitEviction(pod, i, ignoreSafeToEvict, halted, api, t);
    } else {
      answer, err := None, None;
    }
  }

  /** Resizes one pod in place; where the resize cannot be applied, evicts it if `mayEvict`. */
  method ResizePodInPlace(pod: Pod, i: nat, recs: Recommendation, mayEvict: bool, ignoreSafeToEvict: bool, halted: bool,
                          api: Api, t: Trace)
    returns (written: seq<string>, err: Option<Error>, after: Pod, o: Outcome)
    ensures o.regular.Some? <==> Changes(pod.containers, false, recs)
    ensures o.sidecars.Some? <==> Changes(pod.initContainers, true, recs) && o.regular in {None, Some(ResizeAccepted)}
    ensures o.evict.Some? <==> mayEvict && Evictable(pod, ignoreSafeToEvict) && !halted &&
                               CallsForEviction(pod, recs, o.regular == Some(ResizeInvalid))
    ensures err == if mayEvict && Evictable(pod, ignoreSafeToEvict) && halted &&
                      CallsForEviction(pod, recs, o.regular == Some(ResizeInvalid)) then Some(CrashLoop)
                   else if o.Failed() then Some(ApiError) else None
    ensures written != [] <==> o.Resized()
    ensures after == After(pod, recs, o)
    ensures OutcomeAnswered(o, i, api, t)
  {
    assert t + Outcome(None, None, None).Events(i) == t;
    after, o, written, err := pod, Outcome(None, None, None), [], None;
    var containers, initContainers, regular, sidecars := Resized(pod, recs);
    if regular == [] && sidecars == [] {
      var answer;
      answer, err := EvictUnsatisfiable(pod, i, mayEvict, ignoreSafeToEvict, halted, api, t);
      o := o.(evict := answer);
      return;
    }
    if regular != [] {
      var answer := api.resize(t, i, false);
      o := o.(regular := Some(answer));
      match answer {
        case ResizeFailed =>
          after, err := after.(containers := containers), Some(ApiError);
          return;
        case ResizeGone =>
          after := after.(containers := containers);
          return;
        case ResizeInvalid =>
          if mayEvict {
            var evicted;
            evicted, err := SubmitEviction(pod, i, ignoreSafeToEvict, halted, api, t + o.Events(i));
            o := o.(evict := evicted);
          }
          return;
        case ResizeAccepted =>
          after, written := after.(containers := containers), regular;
      }
    }
    if sidecars != [] {
      var answer := api.resize(t + o.Events(i), i, true);
      o := o.(sidecars := Some(answer));
      if answer == ResizeAccepted {
        after, written := after.(initContainers := initContainers), written + sidecars;
      }
    }
  }

  // ---- The pass ----

  /** How a pass treats one pod: left alone, resized in place, or evicted. */
  datatype Treatment = LeaveAlone | ResizeOnly | ResizeOrEvict | EvictStale

  function TreatmentOf(pod: Pod, recs: Recommendation, s: Settings): Treatment {
    var plan := PlanOf(pod, recs, s.tolerance);
    if !Countable(pod) then LeaveAlone
    else if s.inPlace && pod.phase.Running? then (if plan.change.LimitChange? then ResizeOnly else ResizeOrEvict)
    else if plan.Stale() then EvictStale
    else LeaveAlone
  }

  /** `o` is what treating `pod` comes to, whatever the apiserver answered. */
  predicate Treated(pod: Pod, recs: Recommendation, s: Settings, halted: bool, o: Outcome) {
    var clamped := PlanOf(pod, recs, s.tolerance).recs;
    match TreatmentOf(pod, recs, s)
    case LeaveAlone => o == Outcome(None, None, None)
    case EvictStale =>
      o.regular.None? && o.sidecars.None? && (o.evict.Some? <==> Evictable(pod, s.ignoreSafeToEvict) && !halted)
    case ResizeOnly => ResizeSubmitted(pod, clamped, o) && o.evict.None?
    case ResizeOrEvict =>
      && ResizeSubmitted(pod, clamped, o)
      && (o.evict.Some? <==> Evictable(pod, s.ignoreSafeToEvict) && !halted &&
                             CallsForEviction(pod, clamped, o.regular == Some(ResizeInvalid)))
  }

  predicate ResizeSubmitted(pod: Pod, recs: Recommendation, o: Outcome) {
    && (o.regular.Some? <==> Changes(pod.containers, false, recs))
    && (o.sidecars.Some? <==> Changes(pod.initContainers, true, recs) && o.regular in {None, Some(ResizeAccepted)})
  }

  /** What alone may evict a pod: its requests change, or a staged change of its requests cannot complete. */
  predicate Warranted(pod: Pod, recs: Recommendation, s: Settings) {
    var change := PlanOf(pod, recs, s.tolerance).change;
    && Countable(pod) && Evictable(pod, s.ignoreSafeToEvict)
    && (change.RequestChange? ||
        (change.NoChange? && s.inPlace && pod.phase.Running? && Verdict(pod) in {"Infeasible", "Error"} && StagedRequests(pod)))
  }

  lemma TreatedEvictsWarranted(pod: Pod, recs: Recommendation, s: Settings, halted: bool, o: Outcome)
    requires Treated(pod, recs, s, halted, o) && o.evict.Some?
    ensures Warranted(pod, recs, s) && !halted
  {
    if PlanOf(pod, recs, s.tolerance).change.NoChange? {
      NoChangeLeavesNothing(pod, recs, s.tolerance);
    }
  }

  /** An eviction is settled once a listing after it found the workload quiescent, no other eviction in between. */
  ghost predicate SettledAt(t: Trace, pods: seq<Pod>, j: nat, m: nat)
    requires j < m < |t| && t[j].Evict?
  {
    && t[j].pod < |pods|
    && t[m].Listed? && Quiescent(t[m].pods, pods[t[j].pod])
    && forall k :: j < k <= m ==> !t[k].Evict?
  }

  ghost predicate Accepted(e: Event) {
    e.Evict? && e.evictAnswer.EvictAccepted?
  }

  ghost predicate AllSettled(t: Trace, pods: seq<Pod>) {
    forall j :: 0 <= j < |t| && Accepted(t[j]) ==> exists m :: j < m < |t| && SettledAt(t, pods, j, m)
  }

  /** Between an accepted eviction and any later one a listing showed the evicted pod gone and the workload quiescent. */
  ghost predicate Disciplined(t: Trace, pods: seq<Pod>) {
    forall j, k :: 0 <= j < k < |t| && Accepted(t[j]) && t[k].Evict? ==>
      exists m :: j < m < k && SettledAt(t, pods, j, m)
  }

  /** Nothing is done after the pass saw a timeout, a failed list, its cancellation or a crash loop. */
  ghost predicate HaltsForGood(t: Trace) {
    forall j :: 0 <= j < |t| - 1 ==> !Halts(t[j])
  }

  /** Of a pass's events only the last is a failed list, a timeout, a cancellation or a listing with a crash loop. */
  lemma HaltsAtLast(t: Trace, j: nat)
    requires HaltsForGood(t) && j < |t| - 1
    ensures t[j].Resize? || t[j].Evict? || (t[j].Listed? && forall p :: p in t[j].pods ==> !p.crashLooping)
  {
  }

  /** The events of `t` about the pods are those of `outcomes`. */
  ghost predicate Records(t: Trace, outcomes: seq<Outcome>) {
    && (forall e :: e in t && (e.Resize? || e.Evict?) ==> e.pod < |outcomes| && e in outcomes[e.pod].Events(e.pod))
    && (forall i, e :: 0 <= i < |outcomes| && e in outcomes[i].Events(i) ==> e in t)
  }

  ghost predicate NoHalts(t: Trace) {
    forall e :: e in t ==> !Halts(e)
  }

  lemma AppendOutcome(t: Trace, outcomes: seq<Outcome>, o: Outcome)
    requires Records(t, outcomes)
    ensures Records(t + o.Events(|outcomes|), outcomes + [o])
  {
    var os, t' := outcomes + [o], t + o.Events(|outcomes|);
    forall e | e in t' && (e.Resize? || e.Evict?) ensures e.pod < |os| && e in os[e.pod].Events(e.pod) {
      if e in t {
        assert os[e.pod] == outcomes[e.pod];
      } else {
        EventsAreOwn(o, |outcomes|, e);
      }
    }
    forall i, e | 0 <= i < |os| && e in os[i].Events(i) ensures e in t' {
      if i < |outcomes| {
        assert e in outcomes[i].Events(i);
      }
    }
  }

  lemma EventsAreOwn(o: Outcome, i: nat, e: Event)
    requires e in o.Events(i)
    ensures (e.Resize? || e.Evict?) && e.pod == i
  {
  }

  lemma AppendWaits(t: Trace, outcomes: seq<Outcome>, waited: Trace)
    requires Records(t, outcomes) && forall e :: e in waited ==> Waits(e)
    ensures Records(t + waited, outcomes)
  {
    forall e | e in t + waited && (e.Resize? || e.Evict?) ensures e in t {
    }
    forall i, e | 0 <= i < |outcomes| && e in outcomes[i].Events(i) ensures e in t + waited {
      assert e in t;
    }
  }

  /** The requests for one more pod leave every eviction before them settled before them. */
  lemma AppendEvents(t: Trace, pods: seq<Pod>, o: Outcome, i: nat)
    requires AllSettled(t, pods) && Disciplined(t, pods) && NoHalts(t)
    ensures Disciplined(t + o.Events(i), pods) && NoHalts(t + o.Events(i))
    ensures o.evict != Some(EvictAccepted) ==> AllSettled(t + o.Events(i), pods)
    ensures o.evict == Some(EvictAccepted) ==> AllSettledBut(t + o.Events(i), pods, |t + o.Events(i)| - 1)
    ensures o.evict.Some? ==> t + o.Events(i) != [] && (t + o.Events(i))[|t + o.Events(i)| - 1] == Evict(i, o.evict.value)
  {
    var es := o.Events(i);
    var t' := t + es;
    assert forall k :: 0 <= k < |es| && es[k].Evict? ==> k == |es| - 1;
    assert forall k :: |t| <= k < |t'| ==> t'[k] == es[k - |t|];
    forall j | 0 <= j < |t| && Accepted(t'[j]) ensures exists m :: j < m < |t| && SettledAt(t', pods, j, m) {
      var m :| j < m < |t| && SettledAt(t, pods, j, m);
      assert SettledAt(t', pods, j, m);
    }
  }

  /** Every accepted eviction but the last event, if that is one, is settled. */
  ghost predicate AllSettledBut(t: Trace, pods: seq<Pod>, last: int) {
    forall j :: 0 <= j < |t| && j != last && Accepted(t[j]) ==> exists m :: j < m < |t| && SettledAt(t, pods, j, m)
  }

  lemma WaitsFollow(t: Trace, waited: Trace, k: nat)
    requires |t| <= k < |t + waited| && forall e :: e in waited ==> Waits(e)
    ensures Waits((t + waited)[k])
  {
    assert (t + waited)[k] in waited;
  }

  lemma SettledLater(t: Trace, pods: seq<Pod>, waited: Trace, j: nat, m: nat)
    requires j < m < |t| && t[j].Evict? && SettledAt(t, pods, j, m)
    ensures SettledAt(t + waited, pods, j, m)
  {
    assert forall k :: j < k <= m ==> (t + waited)[k] == t[k];
  }

  lemma WaitKeepsDiscipline(t: Trace, pods: seq<Pod>, waited: Trace)
    requires Disciplined(t, pods) && forall e :: e in waited ==> Waits(e)
    ensures Disciplined(t + waited, pods)
  {
    var t' := t + waited;
    forall j, k | 0 <= j < k < |t'| && Accepted(t'[j]) && t'[k].Evict? ensures exists m :: j < m < k && SettledAt(t', pods, j, m) {
      if |t| <= k {
        WaitsFollow(t, waited, k);
      }
      assert Accepted(t[j]) && t[k].Evict?;
      var m :| j < m < k && SettledAt(t, pods, j, m);
      SettledLater(t, pods, waited, j, m);
    }
  }

  lemma WaitSettles(t: Trace, pods: seq<Pod>, i: nat, waited: Trace)
    requires t != [] && t[|t| - 1] == Evict(i, EvictAccepted) && i < |pods|
    requires AllSettledBut(t, pods, |t| - 1) && waited != [] && forall e :: e in waited ==> Waits(e)
    requires waited[|waited| - 1].Listed? && Quiescent(waited[|waited| - 1].pods, pods[i])
    ensures AllSettled(t + waited, pods)
  {
    var t' := t + waited;
    forall j | 0 <= j < |t'| && Accepted(t'[j]) ensures exists m :: j < m < |t'| && SettledAt(t', pods, j, m) {
      if |t| <= j {
        WaitsFollow(t, waited, j);
      }
      assert Accepted(t[j]);
      if j == |t| - 1 {
        forall k | j < k < |t'| ensures !t'[k].Evict? {
          WaitsFollow(t, waited, k);
        }
        assert SettledAt(t', pods, j, |t'| - 1);
      } else {
        var m :| j < m < |t| && SettledAt(t, pods, j, m);
        SettledLater(t, pods, waited, j, m);
      }
    }
  }

  lemma WaitHalts(t: Trace, waited: Trace)
    requires NoHalts(t) && forall e :: e in waited ==> Waits(e)
    requires forall j :: 0 <= j < |waited| - 1 ==> !Halts(waited[j])
    ensures HaltsForGood(t + waited)
    ensures waited != [] && !Halts(waited[|waited| - 1]) ==> NoHalts(t + waited)
  {
    var t' := t + waited;
    forall j | 0 <= j < |t'| - 1 ensures !Halts(t'[j]) {
      if j < |t| {
        assert t'[j] in t;
      } else {
        assert t'[j] == waited[j - |t|];
      }
    }
  }

  /** Waiting out an eviction that ended quiescent settles it. */
  lemma AppendWait(t: Trace, pods: seq<Pod>, i: nat, waited: Trace)
    requires t != [] && t[|t| - 1] == Evict(i, EvictAccepted) && i < |pods|
    requires AllSettledBut(t, pods, |t| - 1) && Disciplined(t, pods) && NoHalts(t)
    requires waited != [] && forall e :: e in waited ==> Waits(e)
    requires forall j :: 0 <= j < |waited| - 1 ==> !Halts(waited[j])
    ensures Disciplined(t + waited, pods) && HaltsForGood(t + waited)
    ensures waited[|waited| - 1].Listed? && Quiescent(waited[|waited| - 1].pods, pods[i]) ==>
              AllSettled(t + waited, pods) && NoHalts(t + waited)
  {
    WaitKeepsDiscipline(t, pods, waited);
    WaitHalts(t, waited);
    var last := waited[|waited| - 1];
    if last.Listed? && Quiescent(last.pods, pods[i]) {
      WaitSettles(t, pods, i, waited);
      assert !Halts(last);
    }
  }

  lemma NoHaltsYet(t: Trace)
    requires NoHalts(t)
    ensures HaltsForGood(t) && HaltsForGood(t + [Cancelled])
  {
    assert forall j :: 0 <= j < |t| ==> t[j] in t;
  }

  // ---- Counting ----

  /** The countable pods among the first `n`, and those of them still stale though the pass did not fix them. */
  function CountsOf(pods: seq<Pod>, recs: Recommendation, tol: Tolerance, fixed: set<nat>, n: nat): (nat, nat)
    requires n <= |pods|
  {
    if n == 0 then (0, 0)
    else
      var (total, stale) := CountsOf(pods, recs, tol, fixed, n - 1);
      if !Countable(pods[n - 1]) then (total, stale)
      else if n - 1 !in fixed && PlanOf(pods[n - 1], recs, tol).Stale() then (total + 1, stale + 1)
      else (total + 1, stale)
  }

  function Among(n: nat, ok: nat -> bool): set<nat> {
    set i | 0 <= i < n && ok(i)
  }

  lemma OneMore(n: nat, ok: nat -> bool)
    ensures |Among(n + 1, ok)| == |Among(n, ok)| + if ok(n) then 1 else 0
  {
    assert n !in Among(n, ok);
    assert Among(n + 1, ok) == if ok(n) then Among(n, ok) + {n} else Among(n, ok);
  }

  function Live(pods: seq<Pod>): nat -> bool {
    (i: nat) => i < |pods| && !pods[i].deleting && !pods[i].phase.Succeeded? && !pods[i].phase.Failed?
  }

  function StillStale(pods: seq<Pod>, recs: Recommendation, tol: Tolerance, fixed: set<nat>): nat -> bool {
    (i: nat) => Live(pods)(i) && i !in fixed && PlanOf(pods[i], recs, tol).change.RequestChange?
  }

  lemma CountStep(before: (nat, nat), after: (nat, nat), n: nat, live: nat -> bool, stale: nat -> bool)
    requires before == (|Among(n, live)|, |Among(n, stale)|)
    requires after == (before.0 + (if live(n) then 1 else 0), before.1 + if stale(n) then 1 else 0)
    ensures after == (|Among(n + 1, live)|, |Among(n + 1, stale)|)
  {
    OneMore(n, live);
    OneMore(n, stale);
  }

  lemma CountsNext(pods: seq<Pod>, recs: Recommendation, tol: Tolerance, fixed: set<nat>, i: nat)
    requires i < |pods|
    ensures var before := CountsOf(pods, recs, tol, fixed, i);
            CountsOf(pods, recs, tol, fixed, i + 1) ==
              (before.0 + (if Live(pods)(i) then 1 else 0), before.1 + if StillStale(pods, recs, tol, fixed)(i) then 1 else 0)
  {
  }

  /** A count is of the live pods, and of the ones among them whose requests still change, those fixed aside. */
  lemma {:induction false} CountsMean(pods: seq<Pod>, recs: Recommendation, tol: Tolerance, fixed: set<nat>, n: nat)
    requires n <= |pods|
    ensures CountsOf(pods, recs, tol, fixed, n) == (|Among(n, Live(pods))|, |Among(n, StillStale(pods, recs, tol, fixed))|)
  {
    if n == 0 {
      assert Among(0, Live(pods)) == {} && Among(0, StillStale(pods, recs, tol, fixed)) == {};
    } else {
      CountsMean(pods, recs, tol, fixed, n - 1);
      CountsNext(pods, recs, tol, fixed, n - 1);
      CountStep(CountsOf(pods, recs, tol, fixed, n - 1), CountsOf(pods, recs, tol, fixed, n), n - 1, Live(pods),
                StillStale(pods, recs, tol, fixed));
    }
  }

  method CountPods(pods: seq<Pod>, recs: Recommendation, tol: Tolerance, fixed: set<nat>) returns (total: nat, stale: nat)
    ensures (total, stale) == CountsOf(pods, recs, tol, fixed, |pods|)
  {
    total, stale := 0, 0;
    for i := 0 to |pods|
      invariant (total, stale) == CountsOf(pods, recs, tol, fixed, i)
    {
      if Countable(pods[i]) {
        total := total + 1;
        var plan := PlanFor(pods[i], recs, tol);
        if i !in fixed && plan.Stale() {
          stale := stale + 1;
        }
      }
    }
  }

  method UpdatedPodCrashLooping(pods: seq<Pod>, recs: Recommendation, tol: Tolerance) returns (halted: bool)
    ensures halted <==> exists p | p in pods :: UpdatedCrashLooping(p, recs, tol)
  {
    for i := 0 to |pods|
      invariant forall p | p in pods[..i] :: !UpdatedCrashLooping(p, recs, tol)
    {
      assert pods[..i + 1] == pods[..i] + [pods[i]];
      if Countable(pods[i]) && pods[i].crashLooping {
        var plan := PlanFor(pods[i], recs, tol);
        if !plan.Stale() {
          assert pods[i] in pods;
          return true;
        }
      }
    }
    assert pods[..|pods|] == pods;
    halted := false;
  }

  /** `counts` is set only for a pass that failed on nothing. */
  datatype PassResult = PassResult(resized: seq<nat>, evicted: seq<nat>, counts: Option<(nat, nat)>)

  ghost predicate Evicted(outcomes: seq<Outcome>, i: nat) {
    i < |outcomes| && outcomes[i].evict == Some(EvictAccepted)
  }

  ghost predicate InPlace(outcomes: seq<Outcome>, i: nat) {
    i < |outcomes| && outcomes[i].Resized()
  }

  /** Treats one pod of a pass: plans it, then resizes, evicts or leaves it. */
  method TreatPod(pod: Pod, i: nat, recs: Recommendation, s: Settings, halted: bool, api: Api, t: Trace)
    returns (o: Outcome, err: Option<Error>, after: Pod)
    requires Countable(pod)
    ensures Treated(pod, recs, s, halted, o)
    ensures err == Some(CrashLoop) <==> HeldBack(pod, recs, s, halted, o.regular == Some(ResizeInvalid))
    ensures err == Some(ApiError) <==> o.Failed()
    ensures err != Some(Replacement)
    ensures after == After(pod, PlanOf(pod, recs, s.tolerance).recs, o)
    ensures OutcomeAnswered(o, i, api, t)
  {
    var plan := PlanFor(pod, recs, s.tolerance);
    o, err, after := Outcome(None, None, None), None, pod;
    assert t + o.Events(i) == t;
    var inPlace := s.inPlace && pod.phase.Running?;
    if inPlace && plan.change.LimitChange? {
      var written;
      written, err, after, o := ResizePodInPlace(pod, i, plan.recs, false, s.ignoreSafeToEvict, halted, api, t);
    } else if inPlace {
      var written;
      written, err, after, o := ResizePodInPlace(pod, i, plan.recs, true, s.ignoreSafeToEvict, halted, api, t);
    } else if plan.Stale() {
      var answer;
      answer, err := SubmitEviction(pod, i, s.ignoreSafeToEvict, halted, api, t);
      o := o.(evict := answer);
    }
  }

  ghost predicate Ascending(xs: seq<nat>) {
    forall i, j :: 0 <= i < j < |xs| ==> xs[i] < xs[j]
  }

  /** `resized`, `evicted` and `fixed` are what `outcomes` came to, each pod once. */
  ghost predicate Tallied(outcomes: seq<Outcome>, res: PassResult, fixed: set<nat>) {
    && (forall i :: i in res.evicted <==> Evicted(outcomes, i))
    && (forall i :: i in res.resized <==> InPlace(outcomes, i))
    && Ascending(res.evicted) && Ascending(res.resized)
    && fixed == FixedBy(outcomes)
  }

  /** The lists of a result are of the pods with an accepted eviction and with an accepted resize. */
  lemma ResultMeans(t: Trace, outcomes: seq<Outcome>, res: PassResult, i: nat)
    requires Records(t, outcomes) && Tallied(outcomes, res, FixedBy(outcomes))
    ensures i in res.evicted <==> Evict(i, EvictAccepted) in t
    ensures i in res.resized <==> Resize(i, false, ResizeAccepted) in t || Resize(i, true, ResizeAccepted) in t
    ensures i in FixedBy(outcomes) <==> i in res.evicted || i in res.resized
    ensures Ascending(res.evicted) && Ascending(res.resized)
  {
    if i < |outcomes| {
      RecordedResize(t, outcomes, i, false, ResizeAccepted);
      RecordedResize(t, outcomes, i, true, ResizeAccepted);
      assert Evict(i, EvictAccepted) in t <==> Evict(i, EvictAccepted) in outcomes[i].Events(i);
    }
  }

  /** A pass failed on a pod where an eviction failed, or the resize of its regular containers did. */
  lemma FailuresMean(t: Trace, outcomes: seq<Outcome>)
    requires Records(t, outcomes)
    ensures NoneFailed(outcomes) <==>
            forall e :: e in t ==>
              !(e.Evict? && e.evictAnswer == EvictFailed) && !(e.Resize? && !e.sidecars && e.resizeAnswer == ResizeFailed)
  {
    forall e | e in t && NoneFailed(outcomes)
      ensures !(e.Evict? && e.evictAnswer == EvictFailed) && !(e.Resize? && !e.sidecars && e.resizeAnswer == ResizeFailed)
    {
      if e.Evict? || e.Resize? {
        assert e in outcomes[e.pod].Events(e.pod) && !outcomes[e.pod].Failed();
      }
    }
    forall i | 0 <= i < |outcomes| && outcomes[i].Failed()
      ensures Evict(i, EvictFailed) in t || Resize(i, false, ResizeFailed) in t
    {
      if outcomes[i].evict == Some(EvictFailed) {
        assert Evict(i, EvictFailed) in outcomes[i].Events(i);
      } else {
        assert Resize(i, false, ResizeFailed) in outcomes[i].Events(i);
      }
    }
  }

  /** An eviction called for and allowed, and not submitted because the pass is halted. */
  predicate HeldBack(pod: Pod, recs: Recommendation, s: Settings, halted: bool, rejected: bool) {
    var plan := PlanOf(pod, recs, s.tolerance);
    && halted && Countable(pod) && Evictable(pod, s.ignoreSafeToEvict)
    && if s.inPlace && pod.phase.Running? then !plan.change.LimitChange? && CallsForEviction(pod, plan.recs, rejected)
       else plan.Stale()
  }

  ghost predicate HeldBackAt(pods: seq<Pod>, recs: Recommendation, s: Settings, halted: bool, outcomes: seq<Outcome>, i: int) {
    0 <= i < |outcomes| <= |pods| && HeldBack(pods[i], recs, s, halted, outcomes[i].regular == Some(ResizeInvalid))
  }

  /** Only a halted pass holds one back, exactly where another would have evicted. */
  lemma HeldBackExactly(pods: seq<Pod>, recs: Recommendation, s: Settings, halted: bool, outcomes: seq<Outcome>,
                        final: seq<Pod>, t: Trace, i: nat)
    requires AllTreated(pods, recs, s, halted, outcomes, final) && Records(t, outcomes) && i < |outcomes|
    ensures var change := PlanOf(pods[i], recs, s.tolerance).change;
            HeldBackAt(pods, recs, s, halted, outcomes, i) <==>
              && halted && !pods[i].deleting && !pods[i].phase.Succeeded? && !pods[i].phase.Failed?
              && (s.ignoreSafeToEvict || !pods[i].safeToEvictFalse)
              && if s.inPlace && pods[i].phase.Running? then
                   || (change.RequestChange? && Resize(i, false, ResizeInvalid) in t)
                   || (change.NoChange? && Verdict(pods[i]) in {"Infeasible", "Error"} && StagedRequests(pods[i]))
                 else change.RequestChange?
  {
    RecordedResize(t, outcomes, i, false, ResizeInvalid);
    ChangeIsWritten(pods[i], recs, s.tolerance);
    assert Treated(pods[i], recs, s, halted, outcomes[i]);
  }

  /** The pods a pass resized or evicted, which its count takes for fixed. */
  ghost function FixedBy(outcomes: seq<Outcome>): (r: set<nat>)
    ensures forall i :: i in r <==> Evicted(outcomes, i) || InPlace(outcomes, i)
  {
    set i | 0 <= i < |outcomes| && (Evicted(outcomes, i) || InPlace(outcomes, i))
  }

  method Tally(ghost outcomes: seq<Outcome>, i: nat, o: Outcome, res: PassResult, fixed: set<nat>)
    returns (res': PassResult, fixed': set<nat>)
    requires Tallied(outcomes, res, fixed) && |outcomes| == i
    ensures Tallied(outcomes + [o], res', fixed') && res'.counts == res.counts
    ensures o.evict != Some(EvictAccepted) ==> res'.evicted == res.evicted
  {
    res', fixed' := res, fixed;
    if o.Resized() {
      res' := res'.(resized := res'.resized + [i]);
      fixed' := fixed' + {i};
    }
    if o.evict == Some(EvictAccepted) {
      res' := res'.(evicted := res'.evicted + [i]);
      fixed' := fixed' + {i};
    }
    TalliedNext(outcomes, o, res, fixed, res', fixed');
  }

  lemma TalliedNext(outcomes: seq<Outcome>, o: Outcome, res: PassResult, fixed: set<nat>, res': PassResult, fixed': set<nat>)
    requires Tallied(outcomes, res, fixed)
    requires res'.resized == if o.Resized() then res.resized + [|outcomes|] else res.resized
    requires res'.evicted == if o.evict == Some(EvictAccepted) then res.evicted + [|outcomes|] else res.evicted
    requires fixed' == if o.Resized() || o.evict == Some(EvictAccepted) then fixed + {|outcomes|} else fixed
    ensures Tallied(outcomes + [o], res', fixed')
  {
    var os := outcomes + [o];
    forall k: nat
      ensures Evicted(os, k) <==> Evicted(outcomes, k) || (k == |outcomes| && o.evict == Some(EvictAccepted))
      ensures InPlace(os, k) <==> InPlace(outcomes, k) || (k == |outcomes| && o.Resized())
    {
    }
    AscendingNext(res.evicted, |outcomes|);
    AscendingNext(res.resized, |outcomes|);
    assert fixed' == FixedBy(os);
  }

  lemma AscendingNext(xs: seq<nat>, n: nat)
    requires Ascending(xs) && forall x :: x in xs ==> x < n
    ensures Ascending(xs + [n])
  {
    forall i, j | 0 <= i < j < |xs + [n]| ensures (xs + [n])[i] < (xs + [n])[j] {
      assert (xs + [n])[i] == xs[i] && xs[i] in xs;
    }
  }

  /** Each of the first pods was treated as planned, and the pass holds it as its outcome left it. */
  ghost predicate AllTreated(pods: seq<Pod>, recs: Recommendation, s: Settings, halted: bool,
                             outcomes: seq<Outcome>, final: seq<Pod>)
  {
    && |outcomes| <= |pods| == |final|
    && (forall i :: 0 <= i < |outcomes| ==>
          && Treated(pods[i], recs, s, halted, outcomes[i])
          && final[i] == After(pods[i], PlanOf(pods[i], recs, s.tolerance).recs, outcomes[i]))
    && (forall i :: |outcomes| <= i < |pods| ==> final[i] == pods[i])
  }

  /** What holds between two pods of a pass nothing has halted yet. */
  ghost predicate Between(t: Trace, pods: seq<Pod>, outcomes: seq<Outcome>, api: Api) {
    AllSettled(t, pods) && Disciplined(t, pods) && Records(t, outcomes) && NoHalts(t) && Answered(t, api)
  }

  ghost predicate NoneFailed(outcomes: seq<Outcome>) {
    forall i :: 0 <= i < |outcomes| ==> !outcomes[i].Failed()
  }

  /** How one round ended, by what happened in it. */
  ghost predicate RoundGave(pod: Pod, recs: Recommendation, s: Settings, halted: bool, o: Outcome, err: Option<Error>, t: Trace) {
    && (err == Some(CrashLoop) <==> HeldBack(pod, recs, s, halted, o.regular == Some(ResizeInvalid)))
    && (err == Some(Replacement) ==> t != [] && Halts(t[|t| - 1]))
    && (err != Some(CrashLoop) && err != Some(Replacement) ==> NoHalts(t) && (err.Some? <==> o.Failed()))
  }

  /** No eviction was held back so far, and `failed` says whether anything failed. */
  ghost predicate GoesOn(pods: seq<Pod>, recs: Recommendation, s: Settings, halted: bool, outcomes: seq<Outcome>, failed: bool) {
    && (failed <==> !NoneFailed(outcomes))
    && forall k :: k < |outcomes| ==> !HeldBackAt(pods, recs, s, halted, outcomes, k)
  }

  /**
   * A pass stops before its last pod only at an event that halts it or at an eviction held back, and nothing was held back
   * before; it is counted exactly when it came to the end with nothing failed and nothing held back.
   */
  ghost predicate Ended(pods: seq<Pod>, recs: Recommendation, s: Settings, halted: bool, outcomes: seq<Outcome>, t: Trace, counted: bool) {
    var stopped := HeldBackAt(pods, recs, s, halted, outcomes, |outcomes| - 1);
    && (|outcomes| < |pods| ==> !NoHalts(t) || stopped)
    && (forall i :: i < |outcomes| - 1 ==> !HeldBackAt(pods, recs, s, halted, outcomes, i))
    && (counted <==> |outcomes| == |pods| && NoHalts(t) && NoneFailed(outcomes) && !stopped)
  }

  lemma EndsCancelled(pods: seq<Pod>, recs: Recommendation, s: Settings, halted: bool, outcomes: seq<Outcome>, t: Trace, failed: bool)
    requires GoesOn(pods, recs, s, halted, outcomes, failed)
    ensures Ended(pods, recs, s, halted, outcomes, t + [Cancelled], false)
  {
    assert Cancelled in t + [Cancelled];
  }

  lemma EndsWhole(pods: seq<Pod>, recs: Recommendation, s: Settings, halted: bool, outcomes: seq<Outcome>, t: Trace, failed: bool)
    requires GoesOn(pods, recs, s, halted, outcomes, failed) && |outcomes| == |pods| && NoHalts(t)
    ensures Ended(pods, recs, s, halted, outcomes, t, !failed)
  {
  }

  lemma RoundEnds(pods: seq<Pod>, recs: Recommendation, s: Settings, halted: bool, outcomes: seq<Outcome>, o: Outcome,
                  err: Option<Error>, t: Trace, failed: bool)
    requires GoesOn(pods, recs, s, halted, outcomes, failed) && |outcomes| < |pods|
    requires RoundGave(pods[|outcomes|], recs, s, halted, o, err, t)
    ensures if err == Some(CrashLoop) || err == Some(Replacement) then Ended(pods, recs, s, halted, outcomes + [o], t, false)
            else GoesOn(pods, recs, s, halted, outcomes + [o], failed || err.Some?)
  {
    var os := outcomes + [o];
    forall k | k < |outcomes| ensures !HeldBackAt(pods, recs, s, halted, os, k) {
      assert !HeldBackAt(pods, recs, s, halted, outcomes, k);
    }
    NoneFailedNext(outcomes, o);
    assert err == Some(Replacement) ==> t[|t| - 1] in t;
  }

  lemma NoneFailedNext(outcomes: seq<Outcome>, o: Outcome)
    ensures NoneFailed(outcomes + [o]) <==> NoneFailed(outcomes) && !o.Failed()
  {
    var os := outcomes + [o];
    assert os[|outcomes|] == o && forall i :: 0 <= i < |outcomes| ==> os[i] == outcomes[i];
  }

  /** A `RecyclePod` for every pod in turn, in the order given. */
  method Recycle(pods: seq<Pod>, recs: Recommendation, s: Settings, api: Api)
    returns (t: Trace, outcomes: seq<Outcome>, final: seq<Pod>, res: PassResult)
    requires s.pollInterval > 0
    ensures Answered(t, api) && Disciplined(t, pods) && HaltsForGood(t) && Records(t, outcomes)
    ensures AllTreated(pods, recs, s, exists p | p in pods :: UpdatedCrashLooping(p, recs, s.tolerance), outcomes, final)
    ensures Ended(pods, recs, s, exists p | p in pods :: UpdatedCrashLooping(p, recs, s.tolerance), outcomes, t, res.counts.Some?)
    ensures Tallied(outcomes, res, FixedBy(outcomes))
    ensures res.counts.Some? ==> res.counts.value == CountsOf(final, recs, s.tolerance, FixedBy(outcomes), |pods|)
  {
    t, outcomes, final, res := [], [], pods, PassResult([], [], None);
    var halted := UpdatedPodCrashLooping(pods, recs, s.tolerance);
    var fixed: set<nat> := {};
    var failed := false;
    for i := 0 to |pods|
      invariant |outcomes| == i
      invariant Between(t, pods, outcomes, api)
      invariant AllTreated(pods, recs, s, halted, outcomes, final)
      invariant Tallied(outcomes, res, fixed) && res.counts.None?
      invariant GoesOn(pods, recs, s, halted, outcomes, failed)
    {
      if api.cancelled(t) {
        AppendCancelled(t, pods, outcomes, api);
        EndsCancelled(pods, recs, s, halted, outcomes, t, failed);
        t := t + [Cancelled];
        return;
      }
      var o, err;
      o, err, final, t := RecyclePod(pods, i, recs, s, halted, api, outcomes, final, t);
      res, fixed := Tally(outcomes, i, o, res, fixed);
      RoundEnds(pods, recs, s, halted, outcomes, o, err, t, failed);
      outcomes := outcomes + [o];
      failed := failed || err.Some?;
      if err == Some(CrashLoop) || err == Some(Replacement) {
        return;
      }
    }
    NoHaltsYet(t);
    EndsWhole(pods, recs, s, halted, outcomes, t, failed);
    if !failed {
      var total, stale := CountPods(final, recs, s.tolerance, fixed);
      res := res.(counts := Some((total, stale)));
    }
  }

  lemma AppendCancelled(t: Trace, pods: seq<Pod>, outcomes: seq<Outcome>, api: Api)
    requires Between(t, pods, outcomes, api)
    ensures Disciplined(t + [Cancelled], pods) && HaltsForGood(t + [Cancelled]) && Records(t + [Cancelled], outcomes)
    ensures api.cancelled(t) ==> Answered(t + [Cancelled], api)
  {
    NoHaltsYet(t);
    assert (t + [Cancelled])[..|t|] == t;
    if api.cancelled(t) {
      AnsweredNext(t, Cancelled, api);
    }
    var t' := t + [Cancelled];
    forall j, k | 0 <= j < k < |t'| && Accepted(t'[j]) && t'[k].Evict? ensures exists m :: j < m < k && SettledAt(t', pods, j, m) {
      assert k < |t|;
      var m :| j < m < k && SettledAt(t, pods, j, m);
      assert SettledAt(t', pods, j, m);
    }
    forall i, e | 0 <= i < |outcomes| && e in outcomes[i].Events(i) ensures e in t' {
      assert e in t;
    }
  }

  lemma TreatedNext(pods: seq<Pod>, recs: Recommendation, s: Settings, halted: bool, outcomes: seq<Outcome>, final: seq<Pod>,
                    o: Outcome, after: Pod)
    requires |outcomes| < |pods| && AllTreated(pods, recs, s, halted, outcomes, final)
    requires Treated(pods[|outcomes|], recs, s, halted, o)
    requires after == After(pods[|outcomes|], PlanOf(pods[|outcomes|], recs, s.tolerance).recs, o)
    ensures AllTreated(pods, recs, s, halted, outcomes + [o], final[|outcomes| := after])
  {
  }

  /** Treats a pod that counts, and leaves another alone. */
  method TreatAny(pod: Pod, i: nat, recs: Recommendation, s: Settings, halted: bool, api: Api, t: Trace)
    returns (o: Outcome, err: Option<Error>, after: Pod)
    ensures Treated(pod, recs, s, halted, o)
    ensures err == Some(CrashLoop) <==> HeldBack(pod, recs, s, halted, o.regular == Some(ResizeInvalid))
    ensures err == Some(ApiError) <==> o.Failed()
    ensures err != Some(Replacement)
    ensures after == After(pod, PlanOf(pod, recs, s.tolerance).recs, o)
    ensures OutcomeAnswered(o, i, api, t)
  {
    o, err, after := Outcome(None, None, None), None, pod;
    if Countable(pod) {
      o, err, after := TreatPod(pod, i, recs, s, halted, api, t);
    }
  }

  /** Waits out an eviction just accepted. */
  method WaitOut(pods: seq<Pod>, i: nat, s: Settings, api: Api, ghost outcomes: seq<Outcome>, t0: Trace)
    returns (failed: bool, t: Trace)
    requires s.pollInterval > 0
    requires t0 != [] && t0[|t0| - 1] == Evict(i, EvictAccepted) && i < |pods|
    requires AllSettledBut(t0, pods, |t0| - 1) && Disciplined(t0, pods) && NoHalts(t0) && Records(t0, outcomes) && Answered(t0, api)
    ensures Answered(t, api) && Disciplined(t, pods) && HaltsForGood(t) && Records(t, outcomes)
    ensures if failed then t != [] && Halts(t[|t| - 1]) else Between(t, pods, outcomes, api)
  {
    var err, waited := WaitForReplacement(pods[i], s, api, t0);
    AppendWait(t0, pods, i, waited);
    AppendWaits(t0, outcomes, waited);
    failed, t := err.Some?, t0 + waited;
  }

  /** One round of the pass: treats pod `i`, then waits for its replacement if it was evicted. */
  method RecyclePod(pods: seq<Pod>, i: nat, recs: Recommendation, s: Settings, halted: bool, api: Api,
                    ghost outcomes: seq<Outcome>, final: seq<Pod>, t0: Trace)
    returns (o: Outcome, err: Option<Error>, final': seq<Pod>, t: Trace)
    requires s.pollInterval > 0
    requires i == |outcomes| < |pods| && !api.cancelled(t0)
    requires Between(t0, pods, outcomes, api)
    requires AllTreated(pods, recs, s, halted, outcomes, final)
    ensures Answered(t, api) && Disciplined(t, pods) && HaltsForGood(t) && Records(t, outcomes + [o])
    ensures AllTreated(pods, recs, s, halted, outcomes + [o], final')
    ensures RoundGave(pods[i], recs, s, halted, o, err, t)
    ensures err != Some(CrashLoop) && err != Some(Replacement) ==> Between(t, pods, outcomes + [o], api)
  {
    var after;
    o, err, after := TreatAny(pods[i], i, recs, s, halted, api, t0);
    TreatedNext(pods, recs, s, halted, outcomes, final, o, after);
    final' := final[i := after];
    t := t0 + o.Events(i);
    AppendEvents(t0, pods, o, i);
    AppendOutcome(t0, outcomes, o);
    OutcomeFollows(o, i, api, t0);
    NoHaltsYet(t);
    if o.evict == Some(EvictAccepted) {
      TreatedEvictsWarranted(pods[i], recs, s, halted, o);
      var failed;
      failed, t := WaitOut(pods, i, s, api, outcomes + [o], t);
      if failed {
        err := Some(Replacement);
      }
    }
    assert err.Some? ==> err.value.ApiError? || err.value.CrashLoop? || err.value.Replacement?;
  }

  /**
   * Over every pass: a pod is evicted at most once, only for a change of its requests or a staged one that cannot
   * complete, never for its limits alone, and no pod is while a live pod already running the Recommendation crash-loops.
   */
  lemma EvictionsAreWarranted(pods: seq<Pod>, recs: Recommendation, s: Settings, halted: bool,
                              outcomes: seq<Outcome>, final: seq<Pod>, t: Trace, e: Event)
    requires AllTreated(pods, recs, s, halted, outcomes, final) && Records(t, outcomes)
    requires e in t && e.Evict?
    ensures e.pod < |pods| && Warranted(pods[e.pod], recs, s) && !halted
    ensures !PlanOf(pods[e.pod], recs, s.tolerance).change.LimitChange?
    ensures forall e' :: e' in t && e'.Evict? && e'.pod == e.pod ==> e' == e
  {
    assert e in outcomes[e.pod].Events(e.pod);
    TreatedEvictsWarranted(pods[e.pod], recs, s, halted, outcomes[e.pod]);
    forall e' | e' in t && e'.Evict? && e'.pod == e.pod ensures e' == e {
      assert e' in outcomes[e.pod].Events(e.pod);
    }
  }

  lemma RecordedEvict(t: Trace, outcomes: seq<Outcome>, i: nat)
    requires Records(t, outcomes) && i < |outcomes|
    ensures (exists e :: e in t && e.Evict? && e.pod == i) <==> outcomes[i].evict.Some?
  {
    if outcomes[i].evict.Some? {
      assert Evict(i, outcomes[i].evict.value) in outcomes[i].Events(i);
    }
    if e :| e in t && e.Evict? && e.pod == i {
      assert e in outcomes[i].Events(i);
    }
  }

  lemma RecordedResize(t: Trace, outcomes: seq<Outcome>, i: nat, sidecars: bool, a: ResizeAnswer)
    requires Records(t, outcomes) && i < |outcomes|
    ensures Resize(i, sidecars, a) in t <==> (if sidecars then outcomes[i].sidecars else outcomes[i].regular) == Some(a)
  {
    var e := Resize(i, sidecars, a);
    if e in t {
      assert e in outcomes[i].Events(i);
    }
    if (if sidecars then outcomes[i].sidecars else outcomes[i].regular) == Some(a) {
      assert e in outcomes[i].Events(i);
    }
  }

  /** A change of requests shows in what the plan would write, and where nothing changes nothing would be written. */
  lemma ChangeIsWritten(pod: Pod, recs: Recommendation, tol: Tolerance)
    ensures var plan := PlanOf(pod, recs, tol);
            var changes := Changes(pod.containers, false, plan.recs) || Changes(pod.initContainers, true, plan.recs);
            (plan.change.RequestChange? ==> changes) && (plan.change.NoChange? ==> !changes)
  {
    var plan := PlanOf(pod, recs, tol);
    if plan.change.NoChange? {
      NoChangeLeavesNothing(pod, recs, tol);
    }
    LargestChangeMeaning(pod.containers, false, plan.recs, |pod.containers|);
    LargestChangeMeaning(pod.initContainers, true, plan.recs, |pod.initContainers|);
    if plan.change.RequestChange? {
      if LargestChange(pod.containers, false, plan.recs, |pod.containers|).RequestChange? {
        var i :| 0 <= i < |pod.containers| && ChangeAt(pod.containers, false, plan.recs, i) == RequestChange;
        ChangeWrites(pod.containers, false, plan.recs, i);
      } else {
        var i :| 0 <= i < |pod.initContainers| && ChangeAt(pod.initContainers, true, plan.recs, i) == RequestChange;
        ChangeWrites(pod.initContainers, true, plan.recs, i);
      }
    }
  }

  lemma ChangeWrites(cs: seq<Container>, init: bool, recs: Recommendation, i: nat)
    requires i < |cs| && ChangeAt(cs, init, recs, i) != NoChange
    ensures Changes(cs, init, recs)
  {
    assert Counts(cs[i], init) && Writes(cs, recs, i);
  }

  /**
   * In a pass that may resize in place, unless it is halted, a running pod it came to is evicted exactly when it may be
   * and either its requests change and its regular resize was rejected as invalid, or nothing changes and a staged change
   * of its requests cannot complete.
   */
  lemma InPlacePassEvictsExactly(pods: seq<Pod>, recs: Recommendation, s: Settings,
                                 outcomes: seq<Outcome>, final: seq<Pod>, t: Trace, i: nat)
    requires AllTreated(pods, recs, s, false, outcomes, final) && Records(t, outcomes)
    requires s.inPlace && i < |outcomes| && !pods[i].deleting && pods[i].phase.Running?
    ensures var change := PlanOf(pods[i], recs, s.tolerance).change;
            (exists e :: e in t && e.Evict? && e.pod == i) <==>
              && (s.ignoreSafeToEvict || !pods[i].safeToEvictFalse)
              && (|| (change.RequestChange? && Resize(i, false, ResizeInvalid) in t)
                  || (change.NoChange? && Verdict(pods[i]) in {"Infeasible", "Error"} && StagedRequests(pods[i])))
  {
    RecordedEvict(t, outcomes, i);
    RecordedResize(t, outcomes, i, false, ResizeInvalid);
    ChangeIsWritten(pods[i], recs, s.tolerance);
    assert Treated(pods[i], recs, s, false, outcomes[i]);
  }

  /**
   * A pod that cannot be resized in place, every one in a pass on evictions alone, is evicted exactly when its requests
   * change and it may be, unless the pass is halted.
   */
  lemma EvictionPassIsComplete(pods: seq<Pod>, recs: Recommendation, s: Settings,
                                outcomes: seq<Outcome>, final: seq<Pod>, t: Trace, i: nat)
    requires AllTreated(pods, recs, s, false, outcomes, final) && Records(t, outcomes)
    requires i < |outcomes| && (!s.inPlace || !pods[i].phase.Running?)
    ensures (exists e :: e in t && e.Evict? && e.pod == i) <==>
              && !pods[i].deleting && !pods[i].phase.Succeeded? && !pods[i].phase.Failed?
              && PlanOf(pods[i], recs, s.tolerance).change.RequestChange?
              && (s.ignoreSafeToEvict || !pods[i].safeToEvictFalse)
  {
    RecordedEvict(t, outcomes, i);
    assert Treated(pods[i], recs, s, false, outcomes[i]);
  }

  /**
   * A pass resizes the regular containers of exactly the running pods it came to whose plan writes one, its sidecars
   * where that was not rejected, and holds them afterwards as it submitted them, an invalid resize and an unaccepted one
   * of sidecars aside.
   */
  lemma PassResizesExactly(pods: seq<Pod>, recs: Recommendation, s: Settings, halted: bool,
                           outcomes: seq<Outcome>, final: seq<Pod>, t: Trace, i: nat)
    requires AllTreated(pods, recs, s, halted, outcomes, final) && Records(t, outcomes) && i < |outcomes|
    ensures ResizedExactly(pods[i], recs, s, t, i, s.inPlace && !pods[i].deleting && pods[i].phase.Running?, final[i])
  {
    assert Treated(pods[i], recs, s, halted, outcomes[i]);
    OutcomeResizes(pods[i], recs, s, outcomes, t, i);
  }

  ghost predicate ResizedExactly(pod: Pod, recs: Recommendation, s: Settings, t: Trace, i: nat, resizes: bool, final: Pod) {
    var planned := PlanOf(pod, recs, s.tolerance).recs;
    && ((exists a :: Resize(i, false, a) in t) <==> resizes && Changes(pod.containers, false, planned))
    && ((exists a :: Resize(i, true, a) in t) <==>
          && resizes && Changes(pod.initContainers, true, planned)
          && (Changes(pod.containers, false, planned) ==> Resize(i, false, ResizeAccepted) in t))
    && final == pod.(
         containers := if exists a :: Resize(i, false, a) in t && a != ResizeInvalid then AppliedTo(pod.containers, false, planned)
                       else pod.containers,
         initContainers := if Resize(i, true, ResizeAccepted) in t then AppliedTo(pod.initContainers, true, planned)
                           else pod.initContainers)
  }

  lemma OutcomeResizes(pod: Pod, recs: Recommendation, s: Settings, outcomes: seq<Outcome>, t: Trace, i: nat)
    requires Records(t, outcomes) && i < |outcomes|
    ensures var o := outcomes[i];
            && ((exists a :: Resize(i, false, a) in t) <==> o.regular.Some?)
            && ((exists a :: Resize(i, true, a) in t) <==> o.sidecars.Some?)
            && (Resize(i, false, ResizeAccepted) in t <==> o.regular == Some(ResizeAccepted))
            && (Resize(i, true, ResizeAccepted) in t <==> o.sidecars == Some(ResizeAccepted))
            && ((exists a :: Resize(i, false, a) in t && a != ResizeInvalid) <==> o.regular.Some? && o.regular.value != ResizeInvalid)
  {
    forall a: ResizeAnswer, sidecars
      ensures Resize(i, sidecars, a) in t <==> (if sidecars then outcomes[i].sidecars else outcomes[i].regular) == Some(a)
    {
      RecordedResize(t, outcomes, i, sidecars, a);
    }
    if outcomes[i].regular.Some? {
      assert Resize(i, false, outcomes[i].regular.value) in t;
    }
    if outcomes[i].sidecars.Some? {
      assert Resize(i, true, outcomes[i].sidecars.value) in t;
    }
  }

  /** While a live pod that already runs the Recommendation crash-loops, a pass evicts nothing. */
  lemma CrashLoopHaltsEvictions(pods: seq<Pod>, recs: Recommendation, s: Settings,
                                outcomes: seq<Outcome>, final: seq<Pod>, t: Trace, k: nat)
    requires AllTreated(pods, recs, s, exists p | p in pods :: UpdatedCrashLooping(p, recs, s.tolerance), outcomes, final)
    requires Records(t, outcomes) && k < |pods| && pods[k].crashLooping
    requires !pods[k].deleting && !pods[k].phase.Succeeded? && !pods[k].phase.Failed?
    requires !PlanOf(pods[k], recs, s.tolerance).change.RequestChange?
    ensures forall e :: e in t ==> !e.Evict?
  {
    assert pods[k] in pods && UpdatedCrashLooping(pods[k], recs, s.tolerance);
    forall e | e in t ensures !e.Evict? {
      if e.Evict? {
        EvictionsAreWarranted(pods, recs, s, true, outcomes, final, t, e);
      }
    }
  }

  /** And nothing else halts it: in a pass where every such pod is stale or no longer live, evictions go on. */
  lemma StaleCrashLoopHaltsNothing(pods: seq<Pod>, recs: Recommendation, s: Settings, outcomes: seq<Outcome>, final: seq<Pod>)
    requires forall p :: p in pods && p.crashLooping ==>
               p.deleting || p.phase.Succeeded? || p.phase.Failed? || PlanOf(p, recs, s.tolerance).change.RequestChange?
    requires AllTreated(pods, recs, s, exists p | p in pods :: UpdatedCrashLooping(p, recs, s.tolerance), outcomes, final)
    ensures AllTreated(pods, recs, s, false, outcomes, final)
  {
    assert !exists p | p in pods :: UpdatedCrashLooping(p, recs, s.tolerance);
  }

  /**
   * Between an accepted eviction and the next one submitted, the pass saw a listing in which no pod crash-loops, none is
   * the evicted one, and every other live one is ready.
   */
  lemma NextEvictionWaits(t: Trace, pods: seq<Pod>, j: nat, k: nat) returns (m: nat)
    requires Disciplined(t, pods) && j < k < |t|
    requires t[j].Evict? && t[j].evictAnswer == EvictAccepted && t[k].Evict?
    ensures j < m < k && t[j].pod < |pods| && t[m].Listed?
    ensures forall p :: p in t[m].pods ==>
              && !p.crashLooping
              && (if pods[t[j].pod].uid == "" then p.name != pods[t[j].pod].name else p.uid != pods[t[j].pod].uid)
              && (p.deleting || p.phase.Succeeded? || p.phase.Failed? || (p.phase.Running? && Ready in p.conditions))
  {
    m :| j < m < k && SettledAt(t, pods, j, m);
  }

  lemma {:induction false} FirstPendingMeans(cs: seq<Condition>)
    ensures FirstPending(cs).None? <==> forall c :: c in cs ==> !c.ResizePending?
    ensures forall i :: 0 <= i < |cs| && cs[i].ResizePending? && (forall j :: 0 <= j < i ==> !cs[j].ResizePending?) ==>
              FirstPending(cs) == Some(cs[i].reason)
  {
    if cs != [] {
      var rest := cs[1..];
      assert cs == [cs[0]] + rest;
      FirstPendingMeans(rest);
      forall i | 0 < i < |cs| && cs[i].ResizePending? && (forall j :: 0 <= j < i ==> !cs[j].ResizePending?)
        ensures FirstPending(cs) == Some(cs[i].reason)
      {
        assert rest[i - 1] == cs[i] && forall j :: 0 <= j < i - 1 ==> rest[j] == cs[j + 1];
        assert !cs[0].ResizePending?;
      }
    }
  }

  /** A verdict is the first pending resize's, else an error of one in progress, else none. */
  lemma VerdictMeans(pod: Pod)
    ensures forall i :: 0 <= i < |pod.conditions| && pod.conditions[i].ResizePending? &&
                        (forall j :: 0 <= j < i ==> !pod.conditions[j].ResizePending?) ==>
              Verdict(pod) == pod.conditions[i].reason
    ensures (forall c :: c in pod.conditions ==> !c.ResizePending?) ==>
              Verdict(pod) == if ResizeInProgress("Error") in pod.conditions then "Error" else ""
  {
    FirstPendingMeans(pod.conditions);
  }

  /** A staged change is of requests where a container the kubelet runs or restarts is enacted with others, or not at all. */
  lemma StagedMeans(pod: Pod)
    ensures StagedRequests(pod) <==>
            exists c :: (c in pod.containers || (c in pod.initContainers && c.sidecar)) &&
                        (c.name in pod.enacted ==>
                           || Value(Get(c.resources.requests, Cpu)) != Value(Get(pod.enacted[c.name].requests, Cpu))
                           || Value(Get(c.resources.requests, Memory)) != Value(Get(pod.enacted[c.name].requests, Memory)))
  {
    forall c ensures Staged(pod, c) <==>
                       (c.name in pod.enacted ==>
                          || Value(Get(c.resources.requests, Cpu)) != Value(Get(pod.enacted[c.name].requests, Cpu))
                          || Value(Get(c.resources.requests, Memory)) != Value(Get(pod.enacted[c.name].requests, Memory)))
    {
    }
  }

  // ---- In-place resizes alone ----

  predicate TreatedInPlaceOnly(pod: Pod, recs: Recommendation, s: Settings, o: Outcome) {
    if pod.deleting || !pod.phase.Running? then o == Outcome(None, None, None)
    else ResizeSubmitted(pod, PlanOf(pod, recs, s.tolerance).recs, o) && o.evict.None?
  }

  /** As `AllTreated`, for a pass that evicts nothing. */
  ghost predicate AllInPlaceOnly(pods: seq<Pod>, recs: Recommendation, s: Settings, outcomes: seq<Outcome>,
                                 final: seq<Pod>) {
    && |outcomes| <= |pods| == |final|
    && (forall i :: 0 <= i < |outcomes| ==>
          && TreatedInPlaceOnly(pods[i], recs, s, outcomes[i])
          && final[i] == After(pods[i], PlanOf(pods[i], recs, s.tolerance).recs, outcomes[i]))
    && (forall i :: |outcomes| <= i < |pods| ==> final[i] == pods[i])
  }

  /** A pass that evicts nothing resizes as `PassResizesExactly` says another does. */
  lemma InPlaceOnlyResizesExactly(pods: seq<Pod>, recs: Recommendation, s: Settings, outcomes: seq<Outcome>, final: seq<Pod>,
                                  t: Trace, i: nat)
    requires AllInPlaceOnly(pods, recs, s, outcomes, final) && Records(t, outcomes) && i < |outcomes|
    ensures ResizedExactly(pods[i], recs, s, t, i, !pods[i].deleting && pods[i].phase.Running?, final[i])
  {
    assert TreatedInPlaceOnly(pods[i], recs, s, outcomes[i]);
    OutcomeResizes(pods[i], recs, s, outcomes, t, i);
  }

  ghost predicate OnlyResizes(t: Trace) {
    forall e :: e in t ==> e.Resize?
  }

  /** What holds between two pods of such a pass. */
  ghost predicate BetweenInPlace(t: Trace, pods: seq<Pod>, recs: Recommendation, s: Settings, outcomes: seq<Outcome>,
                                 final: seq<Pod>, api: Api) {
    OnlyResizes(t) && Answered(t, api) && Records(t, outcomes) && AllInPlaceOnly(pods, recs, s, outcomes, final)
  }

  /** One round of an in-place-only pass. */
  method ResizePod(pods: seq<Pod>, i: nat, recs: Recommendation, s: Settings, api: Api, ghost outcomes: seq<Outcome>,
                   final: seq<Pod>, t0: Trace)
    returns (o: Outcome, err: Option<Error>, final': seq<Pod>, t: Trace)
    requires i == |outcomes| < |pods| && !api.cancelled(t0)
    requires BetweenInPlace(t0, pods, recs, s, outcomes, final, api)
    ensures BetweenInPlace(t, pods, recs, s, outcomes + [o], final', api)
    ensures err.None? <==> !o.Failed()
    ensures o.evict.None?
  {
    o, err, final' := Outcome(None, None, None), None, final;
    assert t0 + o.Events(i) == t0;
    if !pods[i].deleting && pods[i].phase.Running? {
      var plan := PlanFor(pods[i], recs, s.tolerance);
      var written, after;
      written, err, after, o := ResizePodInPlace(pods[i], i, plan.recs, false, s.ignoreSafeToEvict, false, api, t0);
      final' := final'[i := after];
    }
    t := t0 + o.Events(i);
    AppendOutcome(t0, outcomes, o);
    OutcomeFollows(o, i, api, t0);
  }

  /**
   * The submissions of this loop never hold an eviction; without in-place support they are none at all. It counts the
   * pods as its resizes left them.
   */
  method ResizeInPlaceOnly(pods: seq<Pod>, recs: Recommendation, s: Settings, api: Api)
    returns (t: Trace, outcomes: seq<Outcome>, final: seq<Pod>, res: PassResult)
    ensures forall e :: e in t ==> !e.Evict?
    ensures Answered(t, api) && Records(t, outcomes) && AllInPlaceOnly(pods, recs, s, outcomes, final)
    ensures |outcomes| < |pods| && s.inPlace ==> t != [] && t[|t| - 1].Cancelled?
    ensures !s.inPlace ==> t == [] && outcomes == [] && res.counts == Some(CountsOf(pods, recs, s.tolerance, {}, |pods|))
    ensures Tallied(outcomes, res, FixedBy(outcomes)) && res.evicted == []
    ensures s.inPlace ==> (res.counts.Some? <==> NoneFailed(outcomes) && |outcomes| == |pods|)
    ensures res.counts.Some? ==> res.counts.value == CountsOf(final, recs, s.tolerance, FixedBy(outcomes), |pods|)
  {
    t, outcomes, final, res := [], [], pods, PassResult([], [], None);
    var fixed: set<nat> := {};
    if !s.inPlace {
      var total, stale := CountPods(pods, recs, s.tolerance, fixed);
      res := res.(counts := Some((total, stale)));
      assert FixedBy(outcomes) == {};
      return;
    }
    var failed := false;
    for i := 0 to |pods|
      invariant |outcomes| == i
      invariant BetweenInPlace(t, pods, recs, s, outcomes, final, api)
      invariant Tallied(outcomes, res, fixed) && res.evicted == [] && res.counts.None?
      invariant failed <==> !NoneFailed(outcomes)
    {
      if api.cancelled(t) {
        InPlaceCancelled(t, outcomes, api);
        t := t + [Cancelled];
        return;
      }
      var o, err;
      o, err, final, t := ResizePod(pods, i, recs, s, api, outcomes, final, t);
      NoneFailedNext(outcomes, o);
      failed := failed || err.Some?;
      res, fixed := Tally(outcomes, i, o, res, fixed);
      outcomes := outcomes + [o];
    }
    if !failed {
      var total, stale := CountPods(final, recs, s.tolerance, fixed);
      res := res.(counts := Some((total, stale)));
    }
  }

  lemma InPlaceCancelled(t: Trace, outcomes: seq<Outcome>, api: Api)
    requires OnlyResizes(t) && Records(t, outcomes) && Answered(t, api) && api.cancelled(t)
    ensures Records(t + [Cancelled], outcomes) && Answered(t + [Cancelled], api)
    ensures forall e :: e in t + [Cancelled] ==> !e.Evict?
  {
    assert (t + [Cancelled])[..|t|] == t;
    AnsweredNext(t, Cancelled, api);
    forall i, e | 0 <= i < |outcomes| && e in outcomes[i].Events(i) ensures e in t + [Cancelled] {
      assert e in t;
    }
  }
}
