/**
 * The recommendation chain: what the signals contribute, the request they come to, the limit beside it, and the
 * outcome (internal/recommender/compute.go, limit.go, signal_oom.go, signal_usage.go).
 */
module Recommend {
  import opened Common
  import opened Sizing
  import R = Resources

  // ---- OOM kills ----

  const LIVE_OOM_WINDOW: int := 30 * MINUTE
  const OOM_BUMP_FACTOR: real := 1.20

  /** One container's kills: those the recording rules saw, the one the watcher saw, or both. */
  datatype Oom = Oom(kills: real, peak: Option<real>, limit: real, liveAt: Option<Time>)

  const NO_OOM := Oom(0.0, None, 0.0, None)

  predicate Recent(o: Oom) {
    o.kills > 0.0 || o.liveAt.Some?
  }

  /** Whichever anchor there is, or the larger of two. */
  function Floor(o: Oom): Option<real> {
    if o.limit > 0.0 && o.limit * OOM_BUMP_FACTOR > (if o.peak.Some? then o.peak.value else 0.0) then Some(o.limit * OOM_BUMP_FACTOR)
    else o.peak
  }

  /** The floor is at least every anchor there is, and is one of them. */
  lemma FloorIsHighestAnchor(o: Oom)
    requires o.peak.Some? ==> o.peak.value >= 0.0
    ensures Floor(o).Some? <==> o.peak.Some? || o.limit > 0.0
    ensures Floor(o).Some? ==>
              && (o.peak.Some? ==> Floor(o).value >= o.peak.value) && (o.limit > 0.0 ==> Floor(o).value >= o.limit * 1.2)
              && (Floor(o) == o.peak || (o.limit > 0.0 && Floor(o).value == o.limit * 1.2))
  {
  }

  /** What the watcher keeps of a container's kill; `terminatedAt` is `None` when the kubelet left it unset. */
  datatype LiveKill = LiveKill(observedAt: Time, terminatedAt: Option<Time>, limit: int)

  function KilledAt(k: LiveKill): Time {
    if k.terminatedAt.Some? then k.terminatedAt.value else k.observedAt
  }

  /** The kill counts as of `at`: it had happened, and the watcher had seen it within the window. */
  predicate Counts(k: LiveKill, at: Time) {
    at - k.observedAt <= LIVE_OOM_WINDOW && KilledAt(k) <= at
  }

  /** Seen in the half hour before `at` or after it, and dead by then: when the kubelet says, or else when it was seen. */
  lemma CountsExactly(k: LiveKill, at: Time)
    ensures Counts(k, at) <==>
            k.observedAt >= at - 30 * MINUTE && (if k.terminatedAt.Some? then k.terminatedAt.value <= at else k.observedAt <= at)
  {
  }

  function OomOf(ooms: map<string, Oom>, name: string): Oom {
    if name in ooms then ooms[name] else NO_OOM
  }

  /** Merges the watcher's kills as of an instant into those the rules saw. */
  method WithLiveOoms(ooms: map<string, Oom>, live: map<string, LiveKill>, at: Time) returns (merged: map<string, Oom>)
    ensures forall name :: name in merged <==> name in ooms || (name in live && Counts(live[name], at))
    ensures forall name :: name in live && Counts(live[name], at) ==>
              merged[name] == OomOf(ooms, name).(liveAt := Some(KilledAt(live[name])),
                                                 limit := MaxReal(OomOf(ooms, name).limit, live[name].limit as real))
    ensures forall name :: name in ooms && !(name in live && Counts(live[name], at)) ==> merged[name] == ooms[name]
  {
    merged := ooms;
    var names := live.Keys;
    while names != {}
      invariant names <= live.Keys
      invariant forall name :: name in merged <==> name in ooms || (name in live && name !in names && Counts(live[name], at))
      invariant forall name :: name in live && name !in names && Counts(live[name], at) ==>
                  merged[name] == OomOf(ooms, name).(liveAt := Some(KilledAt(live[name])),
                                                     limit := MaxReal(OomOf(ooms, name).limit, live[name].limit as real))
      invariant forall name :: name in ooms && !(name in live && name !in names && Counts(live[name], at)) ==> merged[name] == ooms[name]
    {
      var name :| name in names;
      names := names - {name};
      var k := live[name];
      if at - k.observedAt <= LIVE_OOM_WINDOW && KilledAt(k) <= at {
        var o := OomOf(merged, name);
        merged := merged[name := o.(liveAt := Some(KilledAt(k)), limit := MaxReal(o.limit, k.limit as real))];
      }
    }
  }

  /** A kill the watcher saw only ever raises the floor, and makes the container recently killed. */
  lemma LiveKillRaises(o: Oom, k: LiveKill)
    ensures var m := o.(liveAt := Some(KilledAt(k)), limit := MaxReal(o.limit, k.limit as real));
            Recent(m) && FloorValue(o) <= FloorValue(m)
  {
    TimesMonotone(o.limit, MaxReal(o.limit, k.limit as real), OOM_BUMP_FACTOR);
  }

  function FloorValue(o: Oom): real {
    if Floor(o).Some? then Floor(o).value else 0.0
  }

  // ---- Contributions ----

  datatype Role = Base | Adjuster

  datatype Contribution = Contribution(role: Role, value: real, anchors: bool)

  /** Every base contribution comes before every adjuster's. */
  ghost predicate BaseFirst(cs: seq<Contribution>) {
    forall i, j :: 0 <= i < j < |cs| && cs[j].role.Base? ==> cs[i].role.Base?
  }

  /** The value the contributions come to, and which one set it, -1 for none. */
  ghost predicate Combined(cs: seq<Contribution>, value: real, winner: int) {
    && -1 <= winner < |cs|
    && (winner >= 0 ==> value == cs[winner].value)
    && (winner >= 0 ==> forall i :: 0 <= i < winner ==> cs[i].value < value || (cs[i].role.Adjuster? && value <= 0.0))
    && (forall i :: 0 <= i < |cs| ==> cs[i].value <= value)
    && (winner < 0 ==> value == 0.0 && forall i :: 0 <= i < |cs| ==> cs[i].role.Adjuster?)
    && ((exists i :: 0 <= i < |cs| && cs[i].role.Base?) || value >= 0.0)
  }

  /** One pass over the contributions, in the order of `BaseFirst`, keeping `Combined` of those seen. */
  method RequestOf(cs: seq<Contribution>) returns (value: real, winner: int)
    requires BaseFirst(cs)
    ensures Combined(cs, value, winner)
  {
    value, winner := 0.0, -1;
    for i := 0 to |cs|
      invariant Combined(cs[..i], value, winner)
    {
      CombinedNext(cs, i, value, winner);
      if cs[i].value > value || (cs[i].role.Base? && winner < 0) {
        value, winner := cs[i].value, i;
      }
    }
    assert cs[..|cs|] == cs;
  }

  lemma CombinedNext(cs: seq<Contribution>, i: nat, value: real, winner: int)
    requires BaseFirst(cs) && i < |cs| && Combined(cs[..i], value, winner)
    ensures if cs[i].value > value || (cs[i].role.Base? && winner < 0) then Combined(cs[..i + 1], cs[i].value, i)
            else Combined(cs[..i + 1], value, winner)
  {
    var before, after := cs[..i], cs[..i + 1];
    assert after == before + [cs[i]];
    if cs[i].role.Base? {
      assert forall k :: 0 <= k < i ==> before[k].role.Base?;
      assert after[i].role.Base?;
    }
    if exists k :: 0 <= k < i && before[k].role.Base? {
      var k :| 0 <= k < i && before[k].role.Base?;
      assert after[k].role.Base?;
    }
  }

  /** Contributions no lower come to a value no lower. */
  lemma CombinedMonotone(cs: seq<Contribution>, ds: seq<Contribution>, value: real, winner: int, value': real, winner': int)
    requires |cs| == |ds| && forall i :: 0 <= i < |cs| ==> cs[i].role == ds[i].role && cs[i].value <= ds[i].value
    requires Combined(cs, value, winner) && Combined(ds, value', winner')
    ensures value <= value'
  {
    if winner < 0 {
      assert forall i :: 0 <= i < |ds| ==> ds[i].role == cs[i].role;
    }
  }

  // ---- Limits ----

  datatype LimitsConfig = LimitsConfig(
    keepLimit: bool, noLimit: bool, equalsToRequest: bool, requestsLimitsRatio: Option<real>, keepLimitRequestRatio: bool)

  datatype Strategy = KeepLimit | NoLimit | EqualsToRequest | RequestsLimitsRatio(ratio: real) | KeepLimitRequestRatio

  /** The first strategy chosen, the default when none is. */
  function StrategyOf(cfg: LimitsConfig): Strategy {
    if cfg.keepLimit then KeepLimit
    else if cfg.noLimit then NoLimit
    else if cfg.equalsToRequest then EqualsToRequest
    else if cfg.requestsLimitsRatio.Some? then RequestsLimitsRatio(cfg.requestsLimitsRatio.value)
    else if cfg.keepLimitRequestRatio then KeepLimitRequestRatio
    else KeepLimit
  }

  /** `value` is the limit, none for no limit; when it is not `isSet` the container keeps its own. */
  datatype Limit = Limit(value: Option<Sized>, removed: bool, isSet: bool)

  /** The container's own request and limit of one resource. */
  datatype Own = Own(request: Option<Sized>, limit: Option<Sized>)

  /** A declared zero reads as none declared. */
  function Declared(q: Option<Sized>): Option<Sized> {
    if q.Some? && q.value.milli == 0 then None else q
  }

  /** `request` times `ratio`, rounded up, a binary quantity to a whole unit. */
  function ScaleByRatio(request: Sized, ratio: real): Sized {
    if request.binary then Sized(Ceil(Whole(request.milli) as real * ratio) * 1000, true)
    else Sized(Ceil(request.milli as real * ratio), false)
  }

  function RatioLimit(request: Sized, ratio: real): Limit {
    Limit(Some(ScaleByRatio(request, ratio)), false, true)
  }

  function OwnLimit(own: Own): Limit {
    Limit(Declared(own.limit), false, false)
  }

  function StrategyLimit(s: Strategy, request: Sized, own: Own): Limit {
    match s
    case KeepLimit => OwnLimit(own)
    case NoLimit => Limit(None, true, false)
    case EqualsToRequest => Limit(Some(request), false, true)
    case RequestsLimitsRatio(ratio) => RatioLimit(request, ratio)
    case KeepLimitRequestRatio =>
      if Declared(own.limit).None? || Declared(own.request).None? then OwnLimit(own)
      else RatioLimit(request, own.limit.value.milli as real / own.request.value.milli as real)
  }

  /** The highest of a limit and the adjusters', for a container that has a limit. */
  function Raised(kind: Kind, l: Limit, raises: seq<real>): Limit {
    if raises == [] then l
    else
      var so := Raised(kind, l, raises[..|raises| - 1]);
      var q := WithHeadroom(kind, raises[|raises| - 1], None);
      if so.value.Some? && q.milli > so.value.value.milli then Limit(Some(q), false, true) else so
  }

  function Guarded(l: Limit, request: Sized): Limit {
    if l.value.Some? && l.value.value.milli < request.milli then Limit(Some(request), false, true) else l
  }

  /** The strategy's limit, raised by the limit adjusters, then never below the request. */
  method LimitChain(kind: Kind, request: Sized, own: Own, cfg: LimitsConfig, raises: seq<real>) returns (l: Limit)
    ensures l == Guarded(Raised(kind, StrategyLimit(StrategyOf(cfg), request, own), raises), request)
  {
    var first := StrategyLimit(StrategyOf(cfg), request, own);
    l := first;
    for i := 0 to |raises|
      invariant l == Raised(kind, first, raises[..i])
    {
      assert raises[..i + 1][..i] == raises[..i];
      var q := WithHeadroom(kind, raises[i], None);
      if l.value.Some? && q.milli > l.value.value.milli {
        l := Limit(Some(q), false, true);
      }
    }
    assert raises[..|raises|] == raises;
    if l.value.Some? && l.value.value.milli < request.milli {
      l := Limit(Some(request), false, true);
    }
  }

  /** Adjusters and the guard only raise: they never add a limit, strip one or lower it. */
  lemma {:induction false} RaisedOnlyRaises(kind: Kind, l: Limit, raises: seq<real>)
    requires !(l.removed && l.value.Some?) && (l.isSet ==> l.value.Some?)
    ensures var r := Raised(kind, l, raises);
            && (r.value.Some? <==> l.value.Some?) && (l.value.Some? ==> r.value.value.milli >= l.value.value.milli)
            && (l.value.None? ==> r == l) && (r.value.Some? && !r.isSet ==> r == l) && (r.isSet ==> r.value.Some? && !r.removed)
            && (r != l ==> r.isSet && r.value.value.milli > l.value.value.milli)
            && (r.value.Some? ==> forall v :: v in raises ==> WithHeadroom(kind, v, None).milli <= r.value.value.milli)
  {
    if raises != [] {
      RaisedOnlyRaises(kind, l, raises[..|raises| - 1]);
    }
  }

  /** A limit set or kept beside a request. */
  function LimitFor(kind: Kind, request: Sized, own: Own, cfg: LimitsConfig, raises: seq<real>): Limit {
    Guarded(Raised(kind, StrategyLimit(StrategyOf(cfg), request, own), raises), request)
  }

  /**
   * Under every strategy the limit is absent, stripped, or at least the request: the container's own where that
   * suffices, and a limit set otherwise.
   */
  lemma LimitCoversRequest(kind: Kind, request: Sized, own: Own, cfg: LimitsConfig, raises: seq<real>)
    ensures var l := LimitFor(kind, request, own, cfg, raises);
            && (l.value.Some? ==> l.value.value.milli >= request.milli)
            && (l.removed ==> l.value.None? && !l.isSet) && (l.isSet ==> l.value.Some?)
            && (!l.isSet && l.value.Some? ==> l.value == own.limit)
            && (!l.isSet && l.value.None? && !l.removed ==> Declared(own.limit).None?)
            && (l.removed <==> StrategyOf(cfg).NoLimit?)
  {
    RaisedOnlyRaises(kind, StrategyLimit(StrategyOf(cfg), request, own), raises);
  }

  /** What each strategy makes of the limit, with no adjuster in play. */
  lemma StrategiesMean(kind: Kind, request: Sized, own: Own, cfg: LimitsConfig)
    ensures var l, s := LimitFor(kind, request, own, cfg, []), StrategyOf(cfg);
            && (s.EqualsToRequest? ==> l == Limit(Some(request), false, true))
            && (s.NoLimit? ==> l == Limit(None, true, false))
            && (s.KeepLimit? && Declared(own.limit).Some? ==>
                  if own.limit.value.milli >= request.milli then l == Limit(own.limit, false, false) else l == Limit(Some(request), false, true))
            && (s.KeepLimit? && Declared(own.limit).None? ==> l == Limit(None, false, false))
            && (s.RequestsLimitsRatio? ==> l.isSet && Proportional(request, s.ratio, l.value.value))
            && (s.KeepLimitRequestRatio? && Declared(own.limit).Some? && Declared(own.request).Some? ==>
                  l.isSet && Proportional(request, own.limit.value.milli as real / own.request.value.milli as real, l.value.value))
  {
    var s := StrategyOf(cfg);
    if s.RequestsLimitsRatio? {
      ScaledIsProportional(request, s.ratio);
    } else if s.KeepLimitRequestRatio? && Declared(own.limit).Some? && Declared(own.request).Some? {
      ScaledIsProportional(request, own.limit.value.milli as real / own.request.value.milli as real);
    }
  }

  /** The least limit, in the request's own form, that is `ratio` times the request or more and not below the request. */
  ghost predicate Proportional(request: Sized, ratio: real, l: Sized) {
    && l.milli >= request.milli
    && (l == request || if request.binary
                        then l.milli % 1000 == 0 && (l.milli / 1000 - 1) as real < Whole(request.milli) as real * ratio <= (l.milli / 1000) as real
                        else (l.milli - 1) as real < request.milli as real * ratio <= l.milli as real)
  }

  lemma ScaledIsProportional(request: Sized, ratio: real)
    ensures var q := ScaleByRatio(request, ratio);
            Proportional(request, ratio, if q.milli < request.milli then request else q)
  {
    CeilIsLeast(request.milli as real * ratio, 0);
    CeilIsLeast(Whole(request.milli) as real * ratio, 0);
  }

  // ---- Sizing one resource ----

  datatype RequestsConfig = RequestsConfig(
    keepRequest: bool, headroom: Option<int>, minAllowed: Option<Sized>, maxAllowed: Option<Sized>)

  datatype Config = Config(requests: RequestsConfig, limits: LimitsConfig)

  /** What the signals say of one container: a usage percentile of each resource, and its OOM kills. */
  datatype Signals = Signals(cpuUsage: Option<real>, memoryUsage: Option<real>, oom: Oom)

  function UsageOf(kind: Kind, s: Signals): Option<real> {
    if kind.CpuKind? then s.cpuUsage else s.memoryUsage
  }

  /** Usage always contributes; for memory `OomFloor` does besides, as an adjuster. */
  function ContributionsTo(kind: Kind, s: Signals): seq<Contribution> {
    (if UsageOf(kind, s).Some? then [Contribution(Base, UsageOf(kind, s).value, true)] else []) +
    (if kind.MemoryKind? && Recent(s.oom) then [Contribution(Adjuster, FloorValue(s.oom), Floor(s.oom).Some?)] else [])
  }

  /** The value those come to. */
  function ValueOf(kind: Kind, s: Signals): real {
    var u := UsageOf(kind, s);
    var raised := if kind.MemoryKind? && Recent(s.oom) then FloorValue(s.oom) else 0.0;
    if u.Some? then (if kind.MemoryKind? && Recent(s.oom) then MaxReal(u.value, raised) else u.value) else MaxReal(0.0, raised)
  }

  /** Some signal justifies a request: usage, or a kill whose memory is known. */
  predicate Justified(kind: Kind, s: Signals) {
    UsageOf(kind, s).Some? || (kind.MemoryKind? && Recent(s.oom) && Floor(s.oom).Some?)
  }

  lemma ContributionsCombine(kind: Kind, s: Signals, value: real, winner: int)
    requires Combined(ContributionsTo(kind, s), value, winner)
    ensures value == ValueOf(kind, s)
  {
    var cs := ContributionsTo(kind, s);
    assert forall i :: 0 <= i < |cs| ==> cs[i].value <= value;
    if UsageOf(kind, s).Some? {
      assert cs[0] == Contribution(Base, UsageOf(kind, s).value, true);
    }
    if kind.MemoryKind? && Recent(s.oom) {
      assert cs[|cs| - 1] == Contribution(Adjuster, FloorValue(s.oom), Floor(s.oom).Some?);
    }
  }

  /** The value memory is sized from: usage, or the floor of a recent kill where that is higher, with none of them none. */
  function MemoryNeed(usage: Option<real>, oom: Oom): Option<real> {
    var killed := oom.kills > 0.0 || oom.liveAt.Some?;
    var floor := if killed then Floor(oom) else None;
    var raised := if floor.Some? then floor.value else 0.0;
    if usage.Some? then Some(if killed && raised > usage.value then raised else usage.value)
    else if floor.Some? then Some(if raised > 0.0 then raised else 0.0)
    else None
  }

  datatype ResourceSizing = ResourceSizing(request: Sized, limit: Limit)

  /** The request of one resource, kept by the Policy or sized, and the limit beside it. */
  function SizingOf(kind: Kind, s: Signals, cfg: Config, c: Coordination, own: Own): Option<ResourceSizing> {
    if !Justified(kind, s) || cfg.requests.keepRequest then None
    else
      var q := RequestFor(kind, ValueOf(kind, s), cfg.requests.headroom, c, cfg.requests.minAllowed, cfg.requests.maxAllowed);
      Some(ResourceSizing(q, LimitFor(kind, q, own, cfg.limits, [])))
  }

  /** `SizingOf`, computed from what the contributions combine to. */
  method Size(kind: Kind, s: Signals, cfg: Config, c: Coordination, own: Own) returns (sizing: Option<ResourceSizing>, justified: bool)
    ensures sizing == SizingOf(kind, s, cfg, c, own)
    ensures var value, r := if kind.CpuKind? then s.cpuUsage else MemoryNeed(s.memoryUsage, s.oom), cfg.requests;
            && (justified <==> value.Some?)
            && (sizing.Some? <==> value.Some? && !r.keepRequest)
            && (sizing.Some? ==> sizing.value.request == RequestFor(kind, value.value, r.headroom, c, r.minAllowed, r.maxAllowed))
  {
    var cs := ContributionsTo(kind, s);
    var value, winner := RequestOf(cs);
    ContributionsCombine(kind, s, value, winner);
    justified := exists i :: 0 <= i < |cs| && cs[i].anchors;
    AnchorsJustify(kind, s);
    NeedIsValue(s);
    if !justified || cfg.requests.keepRequest {
      return None, justified;
    }
    var clamped := Clamp(WithHeadroom(kind, value, cfg.requests.headroom), cfg.requests.minAllowed, cfg.requests.maxAllowed);
    var request := clamped;
    if Coordinates(c) {
      request := Clamp(Scaled(clamped, kind, c), cfg.requests.minAllowed, cfg.requests.maxAllowed);
    }
    var l := LimitChain(kind, request, own, cfg.limits, []);
    sizing := Some(ResourceSizing(request, l));
  }

  lemma AnchorsJustify(kind: Kind, s: Signals)
    ensures var cs := ContributionsTo(kind, s);
            (exists i :: 0 <= i < |cs| && cs[i].anchors) <==> Justified(kind, s)
  {
    var cs := ContributionsTo(kind, s);
    if UsageOf(kind, s).Some? {
      assert cs[0].anchors;
    }
    if kind.MemoryKind? && Recent(s.oom) && Floor(s.oom).Some? {
      assert cs[|cs| - 1].anchors;
    }
  }

  /** Every sized request is within the bounds the Policy sets. */
  lemma SizedWithinBounds(kind: Kind, s: Signals, cfg: Config, c: Coordination, own: Own)
    requires SizingOf(kind, s, cfg, c, own).Some?
    ensures InBounds(SizingOf(kind, s, cfg, c, own).value.request, cfg.requests.minAllowed, cfg.requests.maxAllowed)
  {
    RequestInBounds(kind, ValueOf(kind, s), cfg.requests.headroom, c, cfg.requests.minAllowed, cfg.requests.maxAllowed);
  }

  /** Every signal of `s` is one of `t`, where it is no lower; `t` may have others besides. */
  predicate NoLower(s: Signals, t: Signals) {
    && (s.cpuUsage.Some? ==> t.cpuUsage.Some? && s.cpuUsage.value <= t.cpuUsage.value)
    && (s.memoryUsage.Some? ==> t.memoryUsage.Some? && s.memoryUsage.value <= t.memoryUsage.value)
    && (Recent(s.oom) ==> Recent(t.oom))
    && (s.oom.peak.Some? ==> t.oom.peak.Some? && s.oom.peak.value <= t.oom.peak.value)
    && (t.oom.peak.Some? ==> 0.0 <= t.oom.peak.value)
    && s.oom.limit <= t.oom.limit
  }

  lemma ValuesMonotone(kind: Kind, s: Signals, t: Signals)
    requires NoLower(s, t) && Justified(kind, s)
    ensures ValueOf(kind, s) <= ValueOf(kind, t)
  {
    TimesMonotone(s.oom.limit, t.oom.limit, OOM_BUMP_FACTOR);
  }

  /**
   * Higher usage, a higher peak or a higher limit at the kill never lowers a request, nor does a signal that was not there
   * before, for CPU as long as `minAllowed` settles like usage.
   */
  lemma RequestsGrow(kind: Kind, s: Signals, t: Signals, cfg: Config, c: Coordination, own: Own)
    requires NoLower(s, t) && SizingOf(kind, s, cfg, c, own).Some?
    requires kind.CpuKind? ==> MinSettlesAlike(c, cfg.requests.minAllowed, cfg.requests.maxAllowed)
    ensures SizingOf(kind, t, cfg, c, own).Some?
    ensures SizingOf(kind, s, cfg, c, own).value.request.milli <= SizingOf(kind, t, cfg, c, own).value.request.milli
  {
    ValuesMonotone(kind, s, t);
    var v, w, r := ValueOf(kind, s), ValueOf(kind, t), cfg.requests;
    if kind.CpuKind? {
      CpuMonotoneExactly(r.headroom, c, r.minAllowed, r.maxAllowed);
      assert RequestFor(CpuKind, v, r.headroom, c, r.minAllowed, r.maxAllowed).milli <=
             RequestFor(CpuKind, w, r.headroom, c, r.minAllowed, r.maxAllowed).milli;
    } else {
      MemoryIsMonotone(v, w, r.headroom, c, r.minAllowed, r.maxAllowed);
    }
  }

  // ---- A container's Recommendation ----

  function Milli(q: Option<Sized>): Option<int> {
    if q.Some? then Some(q.value.milli) else None
  }

  /** `None` asks nothing; a limit that is not set and not removed is asked for neither way. */
  function AskFor(z: Option<ResourceSizing>): R.Ask {
    if z.None? then R.Ask(None, None, false)
    else R.Ask(Some(z.value.request.milli), if z.value.limit.isSet then Milli(z.value.limit.value) else None,
               !z.value.limit.isSet && z.value.limit.removed)
  }

  function RecommendationOf(cpu: Option<ResourceSizing>, memory: Option<ResourceSizing>): R.ContainerRecommendation {
    var a, b := AskFor(cpu), AskFor(memory);
    R.ContainerRecommendation(a.request, b.request, a.limit, b.limit, a.removeLimit, b.removeLimit)
  }

  /**
   * Injected into the container it was computed for, a sized resource's limit is raised only where the container
   * declares a limit of zero and the strategy starts from the container's own limit.
   */
  lemma RaisesOnlyDeclaredZero(kind: Kind, s: Signals, cfg: Config, c: Coordination, own: Own)
    requires SizingOf(kind, s, cfg, c, own).Some?
    ensures var z := SizingOf(kind, s, cfg, c, own);
            R.RaisesLimit(R.Pair(Milli(own.request), Milli(own.limit)), AskFor(z)) <==>
              && own.limit.Some? && own.limit.value.milli == 0 && z.value.request.milli > 0
              && (StrategyOf(cfg.limits).KeepLimit? || StrategyOf(cfg.limits).KeepLimitRequestRatio?)
  {
    var z := SizingOf(kind, s, cfg, c, own).value;
    LimitCoversRequest(kind, z.request, own, cfg.limits, []);
  }

  /** Nor does any resource's, in a container whose declared limits are not zero and cover what is not sized. */
  lemma InjectingRaisesNothing(s: Signals, cpuCfg: Config, memoryCfg: Config, c: Coordination, cpuOwn: Own, memoryOwn: Own,
                               current: R.Requirements)
    requires R.PairOf(current, R.Cpu) == R.Pair(Milli(cpuOwn.request), Milli(cpuOwn.limit))
    requires R.PairOf(current, R.Memory) == R.Pair(Milli(memoryOwn.request), Milli(memoryOwn.limit))
    requires forall own :: own in {cpuOwn, memoryOwn} && own.limit.Some? ==>
               own.limit.value.milli != 0 && (own.request.Some? ==> own.request.value.milli <= own.limit.value.milli)
    ensures var cpu, memory := SizingOf(CpuKind, s, cpuCfg, c, cpuOwn), SizingOf(MemoryKind, s, memoryCfg, c, memoryOwn);
            R.RaisedLimits(current, RecommendationOf(cpu, memory)) == []
  {
    var cpu, memory := SizingOf(CpuKind, s, cpuCfg, c, cpuOwn), SizingOf(MemoryKind, s, memoryCfg, c, memoryOwn);
    if cpu.Some? {
      RaisesOnlyDeclaredZero(CpuKind, s, cpuCfg, c, cpuOwn);
    }
    if memory.Some? {
      RaisesOnlyDeclaredZero(MemoryKind, s, memoryCfg, c, memoryOwn);
    }
    var rec := RecommendationOf(cpu, memory);
    assert R.AskOf(rec, R.Cpu) == AskFor(cpu) && R.AskOf(rec, R.Memory) == AskFor(memory);
  }

  // ---- The outcome ----

  const MIN_WORKLOAD_AGE: int := 10 * MINUTE

  /** Younger than the age gate, dated at all, and not excused by a recent kill. */
  predicate TooYoung(since: Option<Time>, now: Time, ooms: map<string, Oom>) {
    since.Some? && now - since.value < MIN_WORKLOAD_AGE && forall name :: name in ooms ==> !Recent(ooms[name])
  }

  method IsTooYoung(since: Option<Time>, now: Time, ooms: map<string, Oom>) returns (young: bool)
    ensures young <==> TooYoung(since, now, ooms)
  {
    if since.None? || now - since.value >= MIN_WORKLOAD_AGE {
      return false;
    }
    var names := ooms.Keys;
    while names != {}
      invariant names <= ooms.Keys
      invariant forall name :: name in ooms && name !in names ==> !Recent(ooms[name])
    {
      var name :| name in names;
      if Recent(ooms[name]) {
        return false;
      }
      names := names - {name};
    }
    young := true;
  }

  datatype Outcome = Recommended | WasTooYoung | NoData

  datatype ContainerSpec = ContainerSpec(name: string, cpu: Own, memory: Own)

  /** What one identity is computed from. */
  datatype Inputs = Inputs(cpuUsage: map<string, real>, memoryUsage: map<string, real>, ooms: map<string, Oom>)

  function SignalsOf(i: Inputs, name: string): Signals {
    Signals(if name in i.cpuUsage then Some(i.cpuUsage[name]) else None,
            if name in i.memoryUsage then Some(i.memoryUsage[name]) else None,
            OomOf(i.ooms, name))
  }

  datatype Request = Request(containers: seq<ContainerSpec>, cpu: Config, memory: Config, coordination: Coordination,
                             inputs: Inputs, since: Option<Time>, now: Time)

  /** Some signal justifies a request of the container. */
  predicate Recommendable(r: Request, c: ContainerSpec) {
    Justified(CpuKind, SignalsOf(r.inputs, c.name)) || Justified(MemoryKind, SignalsOf(r.inputs, c.name))
  }

  function ContainerRec(r: Request, c: ContainerSpec): R.ContainerRecommendation {
    var s := SignalsOf(r.inputs, c.name);
    RecommendationOf(SizingOf(CpuKind, s, r.cpu, r.coordination, c.cpu), SizingOf(MemoryKind, s, r.memory, r.coordination, c.memory))
  }

  /** What the first `n` containers are recommended, the last of a name standing. */
  function RecsOf(r: Request, n: nat): R.Recommendation
    requires n <= |r.containers|
  {
    if n == 0 then map[]
    else
      var c := r.containers[n - 1];
      if Recommendable(r, c) then RecsOf(r, n - 1)[c.name := ContainerRec(r, c)] else RecsOf(r, n - 1)
  }

  /** Sizes every container, and says whether that is a Recommendation. */
  method Compute(r: Request) returns (outcome: Outcome, recs: R.Recommendation)
    ensures recs == RecsOf(r, |r.containers|)
    ensures DistinctNames(r) ==> forall i :: 0 <= i < |r.containers| ==> FromOwnSignals(r, r.containers[i], recs)
    ensures outcome.WasTooYoung? <==>
              && r.since.Some? && r.now < r.since.value + 10 * MINUTE
              && forall name :: name in r.inputs.ooms ==> r.inputs.ooms[name].kills <= 0.0 && r.inputs.ooms[name].liveAt.None?
    ensures !outcome.WasTooYoung? ==> if recs == map[] then outcome.NoData? else outcome.Recommended?
  {
    recs := map[];
    for i := 0 to |r.containers|
      invariant recs == RecsOf(r, i)
    {
      var c := r.containers[i];
      var s := SignalsOf(r.inputs, c.name);
      var cpu, cpuOk := Size(CpuKind, s, r.cpu, r.coordination, c.cpu);
      var memory, memoryOk := Size(MemoryKind, s, r.memory, r.coordination, c.memory);
      if cpuOk || memoryOk {
        recs := recs[c.name := RecommendationOf(cpu, memory)];
      }
    }
    if DistinctNames(r) {
      forall i | 0 <= i < |r.containers| ensures FromOwnSignals(r, r.containers[i], recs) {
        ComputedFromOwnSignals(r, i);
      }
    }
    var young := IsTooYoung(r.since, r.now, r.inputs.ooms);
    outcome := if young then WasTooYoung else if |recs| == 0 then NoData else Recommended;
  }

  /** What is asked of a limit beside `request`, read off the Policy's own settings. */
  ghost predicate LimitAsked(request: Sized, own: Own, cfg: LimitsConfig, limit: Option<int>, remove: bool) {
    if cfg.keepLimit || !(cfg.noLimit || cfg.equalsToRequest || cfg.requestsLimitsRatio.Some? || cfg.keepLimitRequestRatio) then
      KeptLimit(request, own, limit, remove)
    else if cfg.noLimit then limit.None? && remove
    else if cfg.equalsToRequest then limit == Some(request.milli) && !remove
    else if cfg.requestsLimitsRatio.Some? then
      limit.Some? && !remove && Proportional(request, cfg.requestsLimitsRatio.value, Sized(limit.value, request.binary))
    else if own.limit.Some? && own.limit.value.milli != 0 && own.request.Some? && own.request.value.milli != 0 then
      limit.Some? && !remove &&
      Proportional(request, own.limit.value.milli as real / own.request.value.milli as real, Sized(limit.value, request.binary))
    else KeptLimit(request, own, limit, remove)
  }

  /** A declared limit below the request is raised to it, and any other stays as it is. */
  predicate KeptLimit(request: Sized, own: Own, limit: Option<int>, remove: bool) {
    && !remove
    && limit == if own.limit.Some? && own.limit.value.milli != 0 && own.limit.value.milli < request.milli then Some(request.milli)
                else None
  }

  lemma AsksLimit(kind: Kind, request: Sized, own: Own, cfg: LimitsConfig)
    ensures var a := AskFor(Some(ResourceSizing(request, LimitFor(kind, request, own, cfg, []))));
            LimitAsked(request, own, cfg, a.limit, a.removeLimit)
  {
    var st := StrategyOf(cfg);
    if st.RequestsLimitsRatio? {
      RatioAsked(kind, request, st.ratio);
    } else if st.KeepLimitRequestRatio? && Declared(own.limit).Some? && Declared(own.request).Some? {
      RatioAsked(kind, request, own.limit.value.milli as real / own.request.value.milli as real);
    }
  }

  lemma RatioAsked(kind: Kind, request: Sized, ratio: real)
    ensures var l := Guarded(RatioLimit(request, ratio), request);
            l.isSet && l.value.Some? && Proportional(request, ratio, Sized(l.value.value.milli, request.binary))
  {
    ScaledIsProportional(request, ratio);
  }

  /** One resource of one container is sized from `value`, where there is one and the Policy does not keep the request. */
  ghost predicate SizedFrom(kind: Kind, value: Option<real>, cfg: Config, c: Coordination, own: Own,
                            request: Option<int>, limit: Option<int>, remove: bool)
  {
    if value.None? || cfg.requests.keepRequest then request.None? && limit.None? && !remove
    else
      var q := RequestFor(kind, value.value, cfg.requests.headroom, c, cfg.requests.minAllowed, cfg.requests.maxAllowed);
      request == Some(q.milli) && LimitAsked(q, own, cfg.limits, limit, remove)
  }

  lemma SizedFromValue(kind: Kind, s: Signals, cfg: Config, c: Coordination, own: Own, value: Option<real>)
    requires value == if Justified(kind, s) then Some(ValueOf(kind, s)) else None
    ensures var a := AskFor(SizingOf(kind, s, cfg, c, own));
            SizedFrom(kind, value, cfg, c, own, a.request, a.limit, a.removeLimit)
  {
    if value.Some? && !cfg.requests.keepRequest {
      AsksLimit(kind, RequestFor(kind, value.value, cfg.requests.headroom, c, cfg.requests.minAllowed, cfg.requests.maxAllowed), own,
                cfg.limits);
    }
  }

  lemma NeedIsValue(s: Signals)
    ensures MemoryNeed(s.memoryUsage, s.oom) == if Justified(MemoryKind, s) then Some(ValueOf(MemoryKind, s)) else None
    ensures s.cpuUsage == if Justified(CpuKind, s) then Some(ValueOf(CpuKind, s)) else None
  {
  }

  ghost predicate DistinctNames(r: Request) {
    forall j, k :: 0 <= j < k < |r.containers| ==> r.containers[j].name != r.containers[k].name
  }

  /** The container is recommended exactly when there is a value for either resource, and each is sized from its own. */
  ghost predicate FromOwnSignals(r: Request, c: ContainerSpec, recs: R.Recommendation) {
    var cpu := if c.name in r.inputs.cpuUsage then Some(r.inputs.cpuUsage[c.name]) else None;
    var usage := if c.name in r.inputs.memoryUsage then Some(r.inputs.memoryUsage[c.name]) else None;
    var memory := MemoryNeed(usage, if c.name in r.inputs.ooms then r.inputs.ooms[c.name] else NO_OOM);
    && (c.name in recs <==> cpu.Some? || memory.Some?)
    && (c.name in recs ==>
          var rec := recs[c.name];
          && SizedFrom(CpuKind, cpu, r.cpu, r.coordination, c.cpu, rec.cpuRequest, rec.cpuLimit, rec.removeCpuLimit)
          && SizedFrom(MemoryKind, memory, r.memory, r.coordination, c.memory,
                       rec.memoryRequest, rec.memoryLimit, rec.removeMemoryLimit))
  }

  /**
   * CPU is sized from the container's own CPU usage and memory from its own memory usage or kills, each under its own
   * resource's settings, beside the container's own request and limit; a container with neither is not recommended.
   */
  lemma ComputedFromOwnSignals(r: Request, i: nat)
    requires i < |r.containers| && DistinctNames(r)
    ensures FromOwnSignals(r, r.containers[i], RecsOf(r, |r.containers|))
  {
    var c := r.containers[i];
    var s := SignalsOf(r.inputs, c.name);
    RecommendedExactly(r, |r.containers|, i);
    NeedIsValue(s);
    SizedFromValue(CpuKind, s, r.cpu, r.coordination, c.cpu, s.cpuUsage);
    SizedFromValue(MemoryKind, s, r.memory, r.coordination, c.memory, MemoryNeed(s.memoryUsage, s.oom));
  }

  /** A container is recommended exactly when some signal justifies it, and with what its own chain gives. */
  lemma {:induction false} RecommendedExactly(r: Request, n: nat, i: nat)
    requires i < n <= |r.containers| && DistinctNames(r)
    ensures var c := r.containers[i];
            && (c.name in RecsOf(r, n) <==> Recommendable(r, c))
            && (c.name in RecsOf(r, n) ==> RecsOf(r, n)[c.name] == ContainerRec(r, c))
  {
    if i < n - 1 {
      RecommendedExactly(r, n - 1, i);
    } else {
      NotRecommendedYet(r, n - 1, r.containers[i].name);
    }
  }

  lemma {:induction false} NotRecommendedYet(r: Request, n: nat, name: string)
    requires n <= |r.containers| && forall j :: 0 <= j < n ==> r.containers[j].name != name
    ensures name !in RecsOf(r, n)
  {
    if n > 0 {
      NotRecommendedYet(r, n - 1, name);
    }
  }

  /** A recent kill whose memory is known gets its container a recommendation however young the workload. */
  lemma KillExcusesAge(r: Request, i: nat)
    requires i < |r.containers| && DistinctNames(r)
    requires r.containers[i].name in r.inputs.ooms
    requires Recent(r.inputs.ooms[r.containers[i].name]) && Floor(r.inputs.ooms[r.containers[i].name]).Some?
    ensures !TooYoung(r.since, r.now, r.inputs.ooms) && r.containers[i].name in RecsOf(r, |r.containers|)
  {
    assert Justified(MemoryKind, SignalsOf(r.inputs, r.containers[i].name));
    RecommendedExactly(r, |r.containers|, i);
  }
}
