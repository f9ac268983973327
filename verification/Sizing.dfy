/**
 * Turning a value into a request: headroom, the operator's bounds and autoscaler coordination
 * (internal/recommender/recommender.go, coordination.go).
 */
module Sizing {
  import opened Arithmetic
  import opened Common

  const MEBIBYTE: int := 1024 * 1024

  datatype Kind = CpuKind | MemoryKind

  /** A quantity in thousandths of its unit; a binary one is scaled in whole units. */
  datatype Sized = Sized(milli: int, binary: bool)

  // ---- Rounding ----

  /** The least integer not below `r`. */
  function Ceil(r: real): int {
    -((-r).Floor)
  }

  /** Toward zero, as a conversion to an integer does. */
  function Truncate(r: real): int {
    if r >= 0.0 then r.Floor else -((-r).Floor)
  }

  /** To the nearest integer, halves away from zero. */
  function Round(r: real): int {
    if r >= 0.0 then (r + 0.5).Floor else -((-r + 0.5).Floor)
  }

  /** A quantity in whole units, rounded away from zero. */
  function Whole(milli: int): int {
    if milli >= 0 then (milli + 999) / 1000 else -((-milli + 999) / 1000)
  }

  lemma CeilIsLeast(r: real, n: int)
    ensures r <= Ceil(r) as real < r + 1.0
    ensures r <= n as real ==> Ceil(r) <= n
  {
  }

  lemma CeilMonotone(a: real, b: real)
    requires a <= b
    ensures Ceil(a) <= Ceil(b)
  {
    CeilIsLeast(b, 0);
    CeilIsLeast(a, Ceil(b));
  }

  lemma DivMonotone(a: real, b: real, t: real)
    requires a <= b && t > 0.0
    ensures a / t <= b / t
  {
    assert b / t - a / t == (b - a) / t;
  }

  lemma TimesMonotone(a: real, b: real, f: real)
    requires a <= b && f >= 0.0
    ensures a * f <= b * f
  {
    assert (b - a) * f >= 0.0;
  }

  lemma WholeMonotone(a: int, b: int)
    requires a <= b
    ensures Whole(a) <= Whole(b)
    ensures a >= 0 ==> 1000 * Whole(a) >= a
    ensures a >= 0 && b % 1000 == 0 ==> 1000 * Whole(a) <= b
  {
  }

  // ---- Headroom ----

  /** The percentage of headroom, none below one. */
  function Percent(headroom: Option<int>): nat {
    if headroom.Some? && headroom.value > 0 then headroom.value else 0
  }

  /** Cores and their headroom, in thousandths. */
  function ThousandthsWanted(v: real, percent: nat): real {
    v * 1000.0 * (1.0 + percent as real / 100.0)
  }

  function Millicores(v: real, percent: nat): int {
    Max(Ceil(ThousandthsWanted(v, percent)), 1)
  }

  function Mebibytes(v: real, percent: nat): int {
    Max(Quo(Quo(Truncate(v) * (100 + percent), 100) + MEBIBYTE - 1, MEBIBYTE), 1)
  }

  /** Of cores `Millicores`, of bytes `Mebibytes`, as a quantity in the form each is written in. */
  function WithHeadroom(kind: Kind, v: real, headroom: Option<int>): Sized {
    if kind.CpuKind? then Sized(Millicores(v, Percent(headroom)), false)
    else Sized(Mebibytes(v, Percent(headroom)) * MEBIBYTE * 1000, true)
  }

  lemma QuoSign(a: int, d: int)
    requires d > 0
    ensures a >= 0 ==> Quo(a, d) >= 0
    ensures a < 0 ==> Quo(a, d) <= 0
  {
  }

  lemma QuoMonotone(a: int, b: int, d: int)
    requires a <= b && d > 0
    ensures Quo(a, d) <= Quo(b, d)
  {
    if 0 <= a {
      QuotientMonotone(a, b, d);
    } else if b < 0 {
      QuotientMonotone(-b, -a, d);
    } else {
      QuoSign(a, d);
      QuoSign(b, d);
    }
  }

  lemma TruncateMonotone(a: real, b: real)
    requires a <= b
    ensures Truncate(a) <= Truncate(b)
  {
  }

  lemma MulUp(a: int, b: int, k: int)
    requires a <= b && k >= 0
    ensures a * k <= b * k
  {
  }

  /** More usage never asks for less, and never for less than the hard minimum. */
  lemma HeadroomMonotone(kind: Kind, v: real, w: real, headroom: Option<int>)
    requires v <= w
    ensures 1 <= WithHeadroom(kind, v, headroom).milli <= WithHeadroom(kind, w, headroom).milli
    ensures kind.MemoryKind? ==> WithHeadroom(kind, v, headroom).milli % 1000 == 0
  {
    if kind.CpuKind? {
      MillicoresMonotone(v, w, Percent(headroom));
    } else {
      MebibytesMonotone(v, w, Percent(headroom));
      ScaleUp(Mebibytes(v, Percent(headroom)), Mebibytes(w, Percent(headroom)));
    }
  }

  lemma MillicoresMonotone(v: real, w: real, percent: nat)
    requires v <= w
    ensures Millicores(v, percent) <= Millicores(w, percent)
  {
    TimesMonotone(v * 1000.0, w * 1000.0, 1.0 + percent as real / 100.0);
    CeilMonotone(ThousandthsWanted(v, percent), ThousandthsWanted(w, percent));
  }

  lemma MebibytesMonotone(v: real, w: real, percent: nat)
    requires v <= w
    ensures Mebibytes(v, percent) <= Mebibytes(w, percent)
  {
    TruncateMonotone(v, w);
    var a, b := Truncate(v), Truncate(w);
    MulUp(a, b, 100 + percent);
    QuoMonotone(a * (100 + percent), b * (100 + percent), 100);
    var x, y := Quo(a * (100 + percent), 100), Quo(b * (100 + percent), 100);
    QuoMonotone(x + MEBIBYTE - 1, y + MEBIBYTE - 1, MEBIBYTE);
  }

  lemma ScaleUp(m: int, n: int)
    requires 1 <= m <= n
    ensures 1 <= m * MEBIBYTE * 1000 <= n * MEBIBYTE * 1000 && m * MEBIBYTE * 1000 % 1000 == 0
  {
  }

  /** Every whole millicore from one on is what some usage comes to. */
  lemma HeadroomReaches(m: int, headroom: Option<int>) returns (v: real)
    requires m >= 1
    ensures WithHeadroom(CpuKind, v, headroom) == Sized(m, false)
  {
    var f := 1.0 + Percent(headroom) as real / 100.0;
    v := m as real / (1000.0 * f);
    assert ThousandthsWanted(v, Percent(headroom)) == m as real by {
      assert v * (1000.0 * f) == m as real;
    }
    CeilIsLeast(m as real, m);
  }

  /** A CPU request is the fewest whole millicores, one at least, that hold the value and its headroom. */
  lemma CpuHeadroomIsLeast(v: real, headroom: Option<int>, m: int)
    ensures var q := WithHeadroom(CpuKind, v, headroom);
            var percent := if headroom.Some? && headroom.value > 0 then headroom.value else 0;
            var wanted := v * 1000.0 * (1.0 + percent as real / 100.0);
            && !q.binary && q.milli >= 1 && q.milli as real >= wanted
            && (m >= 1 && m as real >= wanted ==> q.milli <= m)
  {
    var percent := if headroom.Some? && headroom.value > 0 then headroom.value else 0;
    assert Percent(headroom) == percent;
    assert ThousandthsWanted(v, percent) == v * 1000.0 * (1.0 + percent as real / 100.0);
    CeilIsLeast(ThousandthsWanted(v, percent), m);
  }

  /** A memory request is the fewest whole MiB, one at least, that hold the bytes and their headroom, cut to a byte. */
  lemma MemoryHeadroomIsLeast(v: real, headroom: Option<int>, mib: int)
    requires v >= 0.0
    ensures var q := WithHeadroom(MemoryKind, v, headroom);
            var percent := if headroom.Some? && headroom.value > 0 then headroom.value else 0;
            var wanted := v.Floor * (100 + percent) / 100;
            && q.binary && q.milli % (MEBIBYTE * 1000) == 0 && q.milli >= MEBIBYTE * 1000 && q.milli >= wanted * 1000
            && (mib >= 1 && mib * MEBIBYTE >= wanted ==> q.milli <= mib * MEBIBYTE * 1000)
  {
    var percent := Percent(headroom);
    MulUp(0, Truncate(v), 100 + percent);
    var wanted := Quo(Truncate(v) * (100 + percent), 100);
    QuoSign(Truncate(v) * (100 + percent), 100);
    var m := Quo(wanted + MEBIBYTE - 1, MEBIBYTE);
    MebibytesHold(wanted, mib);
    MultipleOfMebibyte(Max(m, 1));
    ScaleUp(1, Max(m, 1));
  }

  lemma MultipleOfMebibyte(m: int)
    ensures m * MEBIBYTE * 1000 % (MEBIBYTE * 1000) == 0
  {
  }

  lemma MebibytesHold(wanted: int, mib: int)
    requires wanted >= 0
    ensures var m := Max(Quo(wanted + MEBIBYTE - 1, MEBIBYTE), 1);
            m * MEBIBYTE >= wanted && (mib >= 1 && mib * MEBIBYTE >= wanted ==> m <= mib)
  {
  }

  // ---- Bounds ----

  /** Raised to `minQ` and capped at `maxQ`, the cap winning a conflict. */
  function Clamp(q: Sized, minQ: Option<Sized>, maxQ: Option<Sized>): Sized {
    var raised := if minQ.Some? && q.milli < minQ.value.milli then minQ.value else q;
    if maxQ.Some? && raised.milli > maxQ.value.milli then maxQ.value else raised
  }

  predicate InBounds(q: Sized, minQ: Option<Sized>, maxQ: Option<Sized>) {
    && (maxQ.Some? ==> q.milli <= maxQ.value.milli)
    && (minQ.Some? && (maxQ.Some? ==> minQ.value.milli <= maxQ.value.milli) ==> q.milli >= minQ.value.milli)
  }

  /** A clamped quantity is within the bounds: at one of them where it was outside, and otherwise left alone. */
  lemma ClampBounds(q: Sized, minQ: Option<Sized>, maxQ: Option<Sized>)
    ensures InBounds(Clamp(q, minQ, maxQ), minQ, maxQ)
    ensures (minQ.Some? ==> q.milli >= minQ.value.milli) && (maxQ.Some? ==> q.milli <= maxQ.value.milli) ==> Clamp(q, minQ, maxQ) == q
    ensures maxQ.Some? && (q.milli > maxQ.value.milli || (minQ.Some? && minQ.value.milli > maxQ.value.milli)) ==>
              Clamp(q, minQ, maxQ) == maxQ.value
    ensures minQ.Some? && q.milli < minQ.value.milli && (maxQ.Some? ==> minQ.value.milli <= maxQ.value.milli) ==>
              Clamp(q, minQ, maxQ) == minQ.value
  {
  }

  lemma ClampMonotone(q: Sized, r: Sized, minQ: Option<Sized>, maxQ: Option<Sized>)
    requires q.milli <= r.milli
    ensures Clamp(q, minQ, maxQ).milli <= Clamp(r, minQ, maxQ).milli
  {
  }

  // ---- Coordination ----

  const OVERHEAD_SAFETY_MARGIN: real := 110.0
  const OVERHEAD_TARGET_MIN: int := 1
  const OVERHEAD_TARGET_MAX: int := 99

  /** An autoscaler's configured utilization target for each resource, zero for none, and its replicas. */
  datatype Autoscaler = Autoscaler(cpuTarget: int, memoryTarget: int, current: int, min: int, max: int)

  /** The Policy's coordination, and the autoscaler targeting the workload if any. */
  datatype Coordination = Coordination(enabled: bool, anchor: Option<real>, autoscaler: Option<Autoscaler>)

  predicate Coordinates(c: Coordination) {
    c.enabled && c.autoscaler.Some?
  }

  function Divided(v: int, target: int): real
    requires target > 0
  {
    v as real * OVERHEAD_SAFETY_MARGIN / target as real
  }

  /** `q` scaled by 110 over the target, a binary quantity to a whole unit. */
  function WithOverhead(q: Sized, target: int): Sized {
    if target <= 0 then q
    else
      var t := Min(Max(target, OVERHEAD_TARGET_MIN), OVERHEAD_TARGET_MAX);
      if q.binary then Sized(Ceil(Divided(Whole(q.milli), t)) * 1000, true) else Sized(Ceil(Divided(q.milli, t)), false)
  }

  /** The overhead brings `q` to at least 110 parts for every part of the target, and by no more than its unit. */
  lemma OverheadIsLeast(q: Sized, target: int)
    requires q.milli >= 0 && target > 0
    ensures var r, t := WithOverhead(q, target), Min(target, 99);
            && r.binary == q.binary && (q.binary ==> r.milli % 1000 == 0)
            && r.milli * t >= q.milli * 110
            && (!q.binary ==> (r.milli - 1) * t < q.milli * 110)
            && (q.binary ==> (r.milli - 1000) * t < Whole(q.milli) * 1000 * 110)
  {
    var t := Min(target, OVERHEAD_TARGET_MAX);
    var v := if q.binary then Whole(q.milli) else q.milli;
    WholeMonotone(q.milli, q.milli);
    DividedIsLeast(v, t);
    if q.binary {
      ThousandFold(Ceil(Divided(v, t)), t, v);
    }
  }

  lemma TimesQuotient(a: real, t: real)
    requires t > 0.0
    ensures (a / t) * t == a
  {
  }

  lemma IntProduct(a: int, b: int)
    ensures (a * b) as real == a as real * b as real
  {
  }

  lemma DividedIsLeast(v: int, t: int)
    requires t > 0
    ensures Ceil(Divided(v, t)) * t >= v * 110 && (Ceil(Divided(v, t)) - 1) * t < v * 110
  {
    TimesQuotient(v as real * OVERHEAD_SAFETY_MARGIN, t as real);
    CeilOfQuotient(Divided(v, t), v * 110, t);
  }

  lemma CeilOfQuotient(x: real, n: int, t: int)
    requires t > 0 && x * t as real == n as real
    ensures Ceil(x) * t >= n && (Ceil(x) - 1) * t < n
  {
    CeilIsLeast(x, 0);
    QuotientAtMost(x, n, Ceil(x), t);
    QuotientAbove(x, n, Ceil(x) - 1, t);
  }

  lemma QuotientAtMost(x: real, n: int, c: int, t: int)
    requires t > 0 && x * t as real == n as real && x <= c as real
    ensures n <= c * t
  {
    TimesMonotone(x, c as real, t as real);
    IntProduct(c, t);
  }

  lemma QuotientAbove(x: real, n: int, d: int, t: int)
    requires t > 0 && x * t as real == n as real && d as real < x
    ensures d * t < n
  {
    StrictlyLess(d as real, x, t as real);
    IntProduct(d, t);
  }

  lemma ThousandFold(c: int, t: int, v: int)
    requires c * t >= v * 110 && (c - 1) * t < v * 110
    ensures c * 1000 * t >= v * 1000 * 110 && (c * 1000 - 1000) * t < v * 1000 * 110
  {
    Distribute(c, 1, t);
    assert c * 1000 * t == 1000 * (c * t);
    assert (c * 1000 - 1000) * t == 1000 * ((c - 1) * t);
  }

  lemma StrictlyLess(a: real, b: real, f: real)
    requires a < b && f > 0.0
    ensures a * f < b * f
  {
    assert (b - a) * f > 0.0;
  }

  const REPLICA_FACTOR_MIN: real := 0.5
  const REPLICA_FACTOR_MAX: real := 2.0

  function MinReal(a: real, b: real): real {
    if a <= b then a else b
  }

  function MaxReal(a: real, b: real): real {
    if a >= b then a else b
  }

  /** The replicas the anchor asks for, before they are rounded. */
  function ExactReplicas(anchor: real, a: Autoscaler): real {
    a.min as real + MinReal(MaxReal(anchor, 0.0), 1.0) * (a.max - a.min) as real
  }

  /** Current replicas over the replicas the anchor targets, within a factor of two either way; none without a budget. */
  function ReplicaFactor(anchor: real, a: Autoscaler): Option<real> {
    if a.max <= a.min || a.current <= 0 then None
    else
      var target := Min(Max(Round(ExactReplicas(anchor, a)), a.min), a.max);
      if target <= 0 then None
      else Some(MinReal(MaxReal(a.current as real / target as real, REPLICA_FACTOR_MIN), REPLICA_FACTOR_MAX))
  }

  lemma RoundIsNearest(x: real, lo: int, hi: int)
    requires lo as real <= x <= hi as real
    ensures x - 0.5 <= Round(x) as real <= x + 0.5 && lo <= Round(x) <= hi
  {
  }

  lemma ExactReplicasInRange(anchor: real, a: Autoscaler)
    requires a.min <= a.max
    ensures a.min as real <= ExactReplicas(anchor, a) <= a.max as real
  {
    var share, width := MinReal(MaxReal(anchor, 0.0), 1.0), (a.max - a.min) as real;
    TimesMonotone(0.0, share, width);
    TimesMonotone(share, 1.0, width);
    assert ExactReplicas(anchor, a) == a.min as real + share * width;
    assert width == a.max as real - a.min as real && 1.0 * width == width;
  }

  /**
   * The correction is current over targeted replicas, within a factor of two, whenever there is a budget to correct in;
   * the target is within the autoscaler's range and half a replica of the anchor's share of it.
   */
  lemma ReplicaFactorMeans(anchor: real, a: Autoscaler) returns (target: int)
    requires a.min < a.max && a.current > 0
    ensures a.min <= target <= a.max
    ensures var share := if anchor < 0.0 then 0.0 else if anchor > 1.0 then 1.0 else anchor;
            var exact := a.min as real + share * (a.max - a.min) as real;
            exact - 0.5 <= target as real <= exact + 0.5
    ensures ReplicaFactor(anchor, a).Some? <==> target > 0
    ensures target > 0 ==>
              var f, exact := ReplicaFactor(anchor, a).value, a.current as real / target as real;
              0.5 <= f <= 2.0 && (0.5 <= exact <= 2.0 ==> f == exact) && (exact < 0.5 ==> f == 0.5) && (exact > 2.0 ==> f == 2.0)
  {
    ExactReplicasInRange(anchor, a);
    RoundIsNearest(ExactReplicas(anchor, a), a.min, a.max);
    target := Round(ExactReplicas(anchor, a));
  }

  function WithReplicas(q: Sized, anchor: real, a: Autoscaler): Sized {
    var f := ReplicaFactor(anchor, a);
    if f.None? then q else Sized(Ceil(q.milli as real * f.value), q.binary)
  }

  function TargetFor(kind: Kind, a: Autoscaler): int {
    if kind.CpuKind? then a.cpuTarget else a.memoryTarget
  }

  /** What the factors make of a clamped request, before it is clamped again. */
  function Scaled(q: Sized, kind: Kind, c: Coordination): Sized
    requires Coordinates(c)
  {
    var over := WithOverhead(q, TargetFor(kind, c.autoscaler.value));
    if kind.CpuKind? && c.anchor.Some? then WithReplicas(over, c.anchor.value, c.autoscaler.value) else over
  }

  /** The request a clamped quantity ends as. */
  function Settled(q: Sized, kind: Kind, c: Coordination, minQ: Option<Sized>, maxQ: Option<Sized>): Sized {
    if Coordinates(c) then Clamp(Scaled(q, kind, c), minQ, maxQ) else q
  }

  /** The request a value comes to: headroom, bounds, coordination, bounds again. */
  function RequestFor(kind: Kind, v: real, headroom: Option<int>, c: Coordination, minQ: Option<Sized>, maxQ: Option<Sized>): Sized {
    Settled(Clamp(WithHeadroom(kind, v, headroom), minQ, maxQ), kind, c, minQ, maxQ)
  }

  /**
   * Without an autoscaler to coordinate with, a request is the value and its headroom within the bounds. With one, that is
   * brought to the resource's own target, and CPU's then to the replicas the anchor asks for, within the bounds again.
   */
  lemma RequestIsStaged(kind: Kind, v: real, headroom: Option<int>, c: Coordination, minQ: Option<Sized>, maxQ: Option<Sized>)
    ensures var q, r := Clamp(WithHeadroom(kind, v, headroom), minQ, maxQ), RequestFor(kind, v, headroom, c, minQ, maxQ);
            if !c.enabled || c.autoscaler.None? then r == q
            else
              var a := c.autoscaler.value;
              && (kind.MemoryKind? ==> r == Clamp(WithOverhead(q, a.memoryTarget), minQ, maxQ))
              && (kind.CpuKind? && c.anchor.None? ==> r == Clamp(WithOverhead(q, a.cpuTarget), minQ, maxQ))
              && (kind.CpuKind? && c.anchor.Some? ==>
                    r == Clamp(WithReplicas(WithOverhead(q, a.cpuTarget), c.anchor.value, a), minQ, maxQ))
  {
  }

  /** A missing target leaves a quantity as it is, and so does an autoscaler with no replicas to move between. */
  lemma NothingToCoordinate(q: Sized, target: int, anchor: real, a: Autoscaler)
    ensures target <= 0 ==> WithOverhead(q, target) == q
    ensures a.max <= a.min || a.current <= 0 ==> WithReplicas(q, anchor, a) == q
  {
  }

  /** The replica factor brings a quantity, in its own form, to the least number of thousandths that holds it. */
  lemma ReplicasIsLeast(q: Sized, anchor: real, a: Autoscaler)
    requires ReplicaFactor(anchor, a).Some?
    ensures var r, exact := WithReplicas(q, anchor, a), q.milli as real * ReplicaFactor(anchor, a).value;
            r.binary == q.binary && (r.milli - 1) as real < exact <= r.milli as real
  {
    CeilIsLeast(q.milli as real * ReplicaFactor(anchor, a).value, 0);
  }

  /** Whatever coordination does, the request stays within the operator's bounds. */
  lemma RequestInBounds(kind: Kind, v: real, headroom: Option<int>, c: Coordination, minQ: Option<Sized>, maxQ: Option<Sized>)
    ensures InBounds(RequestFor(kind, v, headroom, c, minQ, maxQ), minQ, maxQ)
  {
    var q := Clamp(WithHeadroom(kind, v, headroom), minQ, maxQ);
    ClampBounds(WithHeadroom(kind, v, headroom), minQ, maxQ);
    if Coordinates(c) {
      ClampBounds(Scaled(q, kind, c), minQ, maxQ);
    }
  }

  // ---- Monotonicity ----

  lemma DividedMonotone(a: int, b: int, t: int)
    requires a <= b && t > 0
    ensures Ceil(Divided(a, t)) <= Ceil(Divided(b, t))
  {
    DivMonotone(a as real * OVERHEAD_SAFETY_MARGIN, b as real * OVERHEAD_SAFETY_MARGIN, t as real);
    CeilMonotone(Divided(a, t), Divided(b, t));
  }

  /** Scaling in whole units comes to at least what scaling in thousandths does. */
  lemma WholeUnitsRoundUp(m: int, t: int)
    requires m >= 0 && t > 0
    ensures Ceil(Divided(m, t)) <= 1000 * Ceil(Divided(Whole(m), t))
  {
    var w := Whole(m);
    WholeMonotone(m, m);
    DivMonotone(m as real * OVERHEAD_SAFETY_MARGIN, (1000 * w) as real * OVERHEAD_SAFETY_MARGIN, t as real);
    ThousandTimes(w as real * OVERHEAD_SAFETY_MARGIN, t as real);
    CeilIsLeast(Divided(w, t), 0);
    CeilIsLeast(Divided(m, t), 1000 * Ceil(Divided(w, t)));
  }

  lemma ThousandTimes(x: real, t: real)
    requires t > 0.0
    ensures (1000.0 * x) / t == 1000.0 * (x / t)
  {
  }

  /** A larger quantity of the same form, or one scaled in whole units, is never scaled to less. */
  lemma OverheadMonotone(q: Sized, r: Sized, target: int)
    requires q.milli <= r.milli && (q.binary == r.binary || (!q.binary && q.milli >= 0))
    ensures WithOverhead(q, target).milli <= WithOverhead(r, target).milli
  {
    if target > 0 {
      var t := Min(Max(target, OVERHEAD_TARGET_MIN), OVERHEAD_TARGET_MAX);
      DividedMonotone(q.milli, r.milli, t);
      if r.binary {
        if q.binary {
          WholeMonotone(q.milli, r.milli);
          DividedMonotone(Whole(q.milli), Whole(r.milli), t);
        } else {
          WholeUnitsRoundUp(r.milli, t);
        }
      }
    }
  }

  lemma ReplicasMonotone(q: Sized, r: Sized, anchor: real, a: Autoscaler)
    requires q.milli <= r.milli
    ensures WithReplicas(q, anchor, a).milli <= WithReplicas(r, anchor, a).milli
  {
    var f := ReplicaFactor(anchor, a);
    if f.Some? {
      TimesMonotone(q.milli as real, r.milli as real, f.value);
      CeilMonotone(q.milli as real * f.value, r.milli as real * f.value);
    }
  }

  lemma SettledMonotone(q: Sized, r: Sized, kind: Kind, c: Coordination, minQ: Option<Sized>, maxQ: Option<Sized>)
    requires q.milli <= r.milli && (q.binary == r.binary || (!q.binary && q.milli >= 0))
    ensures Settled(q, kind, c, minQ, maxQ).milli <= Settled(r, kind, c, minQ, maxQ).milli
  {
    if Coordinates(c) {
      var a := c.autoscaler.value;
      OverheadMonotone(q, r, TargetFor(kind, a));
      if kind.CpuKind? && c.anchor.Some? {
        ReplicasMonotone(WithOverhead(q, TargetFor(kind, a)), WithOverhead(r, TargetFor(kind, a)), c.anchor.value, a);
      }
      ClampMonotone(Scaled(q, kind, c), Scaled(r, kind, c), minQ, maxQ);
    }
  }

  /** The least integer that `d` of is no less than `n`. */
  function CeilQuotient(n: int, d: int): int
    requires d > 0
  {
    -((-n) / d)
  }

  /** Millicores once the replica factor, if any, has been applied. */
  function Corrected(milli: int, c: Coordination): int
    requires Coordinates(c)
  {
    var f := if c.anchor.Some? then ReplicaFactor(c.anchor.value, c.autoscaler.value) else None;
    if f.None? then milli else Ceil(milli as real * f.value)
  }

  /**
   * When a CPU `minAllowed` asks for no more than the same usage does. Only one in a binary form can ask for more, whose
   * overhead is rounded up to whole cores twice: it does when those cores, replica factor applied, come to more than the
   * millicores of usage do and than `minAllowed` itself, and `maxAllowed` is above both.
   */
  predicate MinSettlesAlike(c: Coordination, minQ: Option<Sized>, maxQ: Option<Sized>) {
    Coordinates(c) && c.autoscaler.value.cpuTarget > 0 && minQ.Some? && minQ.value.binary && minQ.value.milli > 1 ==>
      var m, t := minQ.value.milli, Min(c.autoscaler.value.cpuTarget, OVERHEAD_TARGET_MAX);
      var byCores := Corrected(1000 * CeilQuotient(110 * CeilQuotient(m, 1000), t), c);
      var byMillicores := Corrected(CeilQuotient(110 * m, t), c);
      byCores <= Max(byMillicores, m) || (maxQ.Some? && maxQ.value.milli <= Max(byMillicores, m))
  }

  /** The same, said of the requests themselves. */
  predicate MinSettlesNoHigher(c: Coordination, minQ: Option<Sized>, maxQ: Option<Sized>) {
    minQ.None? || minQ.value.milli <= 1 ||
    Settled(Clamp(minQ.value, minQ, maxQ), CpuKind, c, minQ, maxQ).milli <=
    Settled(Clamp(Sized(minQ.value.milli, false), minQ, maxQ), CpuKind, c, minQ, maxQ).milli
  }

  lemma CeilQuotientIsLeast(n: int, d: int, k: int)
    requires d > 0 && k * d >= n && (k - 1) * d < n
    ensures CeilQuotient(n, d) == k
  {
    var q := CeilQuotient(n, d);
    assert -n == d * ((-n) / d) + (-n) % d;
    assert q * d >= n && n > q * d - d;
    if q < k {
      ProductAtMost(q, k - 1, d);
    } else if k < q {
      ProductAtMost(k, q - 1, d);
    }
  }

  lemma ProductAtMost(a: int, b: int, d: int)
    requires a <= b && d > 0
    ensures a * d <= b * d
  {
  }

  lemma CeilDividedIsQuotient(v: int, t: int)
    requires t > 0
    ensures Ceil(Divided(v, t)) == CeilQuotient(110 * v, t)
  {
    DividedIsLeast(v, t);
    CeilQuotientIsLeast(110 * v, t, Ceil(Divided(v, t)));
  }

  lemma WholeIsQuotient(m: int)
    requires m >= 0
    ensures Whole(m) == CeilQuotient(m, 1000)
  {
  }

  lemma OverheadOfMinimum(m: int, binary: bool, target: int)
    requires target > 0 && m > 0
    ensures var t := Min(target, OVERHEAD_TARGET_MAX);
            WithOverhead(Sized(m, binary), target).milli ==
            if binary then 1000 * CeilQuotient(110 * CeilQuotient(m, 1000), t) else CeilQuotient(110 * m, t)
  {
    var t := Min(target, OVERHEAD_TARGET_MAX);
    if binary {
      WholeIsQuotient(m);
      CeilDividedIsQuotient(Whole(m), t);
    } else {
      CeilDividedIsQuotient(m, t);
    }
  }

  /** What the factors make of `minAllowed` in either form. */
  lemma ScaledMinimum(m: int, binary: bool, c: Coordination)
    requires Coordinates(c) && c.autoscaler.value.cpuTarget > 0 && m > 0
    ensures var t := Min(c.autoscaler.value.cpuTarget, OVERHEAD_TARGET_MAX);
            Scaled(Sized(m, binary), CpuKind, c).milli ==
            Corrected(if binary then 1000 * CeilQuotient(110 * CeilQuotient(m, 1000), t) else CeilQuotient(110 * m, t), c)
  {
    OverheadOfMinimum(m, binary, c.autoscaler.value.cpuTarget);
    ScaledIsCorrected(Sized(m, binary), c);
  }

  lemma ScaledIsCorrected(q: Sized, c: Coordination)
    requires Coordinates(c)
    ensures Scaled(q, CpuKind, c).milli == Corrected(WithOverhead(q, c.autoscaler.value.cpuTarget).milli, c)
  {
    var over := WithOverhead(q, c.autoscaler.value.cpuTarget);
    if c.anchor.Some? {
      CorrectedIsReplicas(over, c);
    }
  }

  lemma CorrectedIsReplicas(q: Sized, c: Coordination)
    requires Coordinates(c) && c.anchor.Some?
    ensures Corrected(q.milli, c) == WithReplicas(q, c.anchor.value, c.autoscaler.value).milli
  {
  }

  lemma AlikeIsNoHigher(c: Coordination, minQ: Option<Sized>, maxQ: Option<Sized>)
    ensures MinSettlesAlike(c, minQ, maxQ) <==> MinSettlesNoHigher(c, minQ, maxQ)
  {
    if minQ.Some? && minQ.value.binary && minQ.value.milli > 1 && Coordinates(c) {
      if c.autoscaler.value.cpuTarget > 0 {
        ScaledMinimum(minQ.value.milli, true, c);
        ScaledMinimum(minQ.value.milli, false, c);
      } else {
        UnscaledAlike(c, minQ, maxQ);
      }
    }
  }

  lemma UnscaledAlike(c: Coordination, minQ: Option<Sized>, maxQ: Option<Sized>)
    requires minQ.Some? && minQ.value.milli > 1 && Coordinates(c) && c.autoscaler.value.cpuTarget <= 0
    ensures MinSettlesNoHigher(c, minQ, maxQ)
  {
    var m := Sized(minQ.value.milli, false);
    var x, y := Clamp(minQ.value, minQ, maxQ), Clamp(m, minQ, maxQ);
    assert x.milli == y.milli;
    assert WithOverhead(x, 0) == x && WithOverhead(y, 0) == y;
    if c.anchor.Some? {
      ReplicasMonotone(x, y, c.anchor.value, c.autoscaler.value);
    }
    ClampMonotone(Scaled(x, CpuKind, c), Scaled(y, CpuKind, c), minQ, maxQ);
  }

  /** No CPU usage is settled above a higher one. */
  ghost predicate CpuIsMonotone(headroom: Option<int>, c: Coordination, minQ: Option<Sized>, maxQ: Option<Sized>) {
    forall v, w :: v <= w ==> RequestFor(CpuKind, v, headroom, c, minQ, maxQ).milli <= RequestFor(CpuKind, w, headroom, c, minQ, maxQ).milli
  }

  lemma CpuOrdered(q: Sized, r: Sized, c: Coordination, minQ: Option<Sized>, maxQ: Option<Sized>)
    requires 1 <= q.milli <= r.milli && !q.binary && !r.binary && MinSettlesNoHigher(c, minQ, maxQ)
    ensures Settled(Clamp(q, minQ, maxQ), CpuKind, c, minQ, maxQ).milli <= Settled(Clamp(r, minQ, maxQ), CpuKind, c, minQ, maxQ).milli
  {
    var x, y := Clamp(q, minQ, maxQ), Clamp(r, minQ, maxQ);
    ClampMonotone(q, r, minQ, maxQ);
    if x == y {
    } else if x == q {
      SettledMonotone(x, y, CpuKind, c, minQ, maxQ);
    } else {
      var m := Sized(minQ.value.milli, false);
      assert x == minQ.value && Clamp(m, minQ, maxQ) == m;
      SettledMonotone(m, y, CpuKind, c, minQ, maxQ);
    }
  }

  /** CPU requests grow with usage exactly when no `minAllowed` in a binary form is rounded above the same usage. */
  lemma CpuMonotoneExactly(headroom: Option<int>, c: Coordination, minQ: Option<Sized>, maxQ: Option<Sized>)
    ensures CpuIsMonotone(headroom, c, minQ, maxQ) <==> MinSettlesAlike(c, minQ, maxQ)
  {
    AlikeIsNoHigher(c, minQ, maxQ);
    if MinSettlesAlike(c, minQ, maxQ) {
      forall v, w | v <= w
        ensures RequestFor(CpuKind, v, headroom, c, minQ, maxQ).milli <= RequestFor(CpuKind, w, headroom, c, minQ, maxQ).milli
      {
        HeadroomMonotone(CpuKind, v, w, headroom);
        CpuOrdered(WithHeadroom(CpuKind, v, headroom), WithHeadroom(CpuKind, w, headroom), c, minQ, maxQ);
      }
    }
    if CpuIsMonotone(headroom, c, minQ, maxQ) && minQ.Some? && minQ.value.milli > 1 {
      var m := minQ.value.milli;
      var v := HeadroomReaches(1, headroom);
      var w := HeadroomReaches(m, headroom);
      if w < v {
        HeadroomMonotone(CpuKind, w, v, headroom);
      }
      assert RequestFor(CpuKind, v, headroom, c, minQ, maxQ).milli <= RequestFor(CpuKind, w, headroom, c, minQ, maxQ).milli;
      assert Clamp(Sized(1, false), minQ, maxQ) == Clamp(minQ.value, minQ, maxQ);
    }
  }

  /** A `minAllowed` written in decimal, as CPU is, never breaks it, and neither does coordination that is off. */
  lemma DecimalMinIsMonotone(headroom: Option<int>, c: Coordination, minQ: Option<Sized>, maxQ: Option<Sized>)
    requires minQ.None? || !minQ.value.binary || !Coordinates(c) || c.autoscaler.value.cpuTarget <= 0
    ensures CpuIsMonotone(headroom, c, minQ, maxQ)
  {
    CpuMonotoneExactly(headroom, c, minQ, maxQ);
  }

  /** A minimum of 1Ki cores under a 70% target: idling asks for 1610 cores where using 1024 asks for 1609.143. */
  lemma BinaryMinBreaksIt()
    ensures var c := Coordination(true, None, Some(Autoscaler(70, 0, 1, 1, 1)));
            var minQ := Some(Sized(1024000, true));
            RequestFor(CpuKind, 0.0, None, c, minQ, None).milli == 1610000 > RequestFor(CpuKind, 1024.0, None, c, minQ, None).milli
  {
    var q := WithHeadroom(CpuKind, 1024.0, None);
    assert 1024.0 * 1000.0 * (1.0 + 0.0 / 100.0) == 1024000.0;
    assert q == Sized(1024000, false);
    assert Whole(1024000) == 1024;
    var a, b := Divided(1024, 70), Divided(1024000, 70);
    assert a == 112640.0 / 70.0 && b == 112640000.0 / 70.0;
    CeilIsLeast(a, 1610);
    CeilIsLeast(b, 1609143);
  }

  // ---- Memory ----

  lemma OverheadGrows(q: Sized, target: int)
    requires q.milli >= 0
    ensures WithOverhead(q, target).milli >= q.milli
  {
    if target > 0 {
      var t := Min(Max(target, OVERHEAD_TARGET_MIN), OVERHEAD_TARGET_MAX);
      var v := if q.binary then Whole(q.milli) else q.milli;
      WholeMonotone(q.milli, q.milli);
      DividedGrows(v, t);
    }
  }

  lemma DividedGrows(v: int, t: int)
    requires v >= 0 && 0 < t <= 99
    ensures Ceil(Divided(v, t)) >= v
  {
    TimesMonotone(t as real, OVERHEAD_SAFETY_MARGIN, v as real);
    DivMonotone(t as real * v as real, OVERHEAD_SAFETY_MARGIN * v as real, t as real);
    assert t as real * v as real / t as real == v as real;
    CeilIsLeast(Divided(v, t), 0);
  }

  /** A memory request at `maxAllowed` stays there. */
  lemma MaxStays(c: Coordination, minQ: Option<Sized>, maxQ: Option<Sized>)
    requires maxQ.Some? && maxQ.value.milli >= 0
    ensures Settled(maxQ.value, MemoryKind, c, minQ, maxQ).milli == maxQ.value.milli
  {
    if Coordinates(c) {
      OverheadGrows(maxQ.value, c.autoscaler.value.memoryTarget);
    }
  }

  lemma MemoryOrdered(q: Sized, r: Sized, c: Coordination, minQ: Option<Sized>, maxQ: Option<Sized>)
    requires 1 <= q.milli <= r.milli && q.binary && r.binary && r.milli % 1000 == 0
    ensures Settled(Clamp(q, minQ, maxQ), MemoryKind, c, minQ, maxQ).milli <= Settled(Clamp(r, minQ, maxQ), MemoryKind, c, minQ, maxQ).milli
  {
    var x, y := Clamp(q, minQ, maxQ), Clamp(r, minQ, maxQ);
    ClampMonotone(q, r, minQ, maxQ);
    if x != y {
      if y == r {
        SettledMonotone(x, y, MemoryKind, c, minQ, maxQ);
      } else {
        assert maxQ.Some? && y == maxQ.value && maxQ.value.milli >= 0;
        MaxStays(c, minQ, maxQ);
        SettledAtMost(x, c, minQ, maxQ);
      }
    }
  }

  lemma SettledAtMost(q: Sized, c: Coordination, minQ: Option<Sized>, maxQ: Option<Sized>)
    requires maxQ.Some? && q.milli <= maxQ.value.milli
    ensures Settled(q, MemoryKind, c, minQ, maxQ).milli <= maxQ.value.milli
  {
  }

  /** Memory requests grow with the value they are computed from, whatever forms the bounds are written in. */
  lemma MemoryIsMonotone(v: real, w: real, headroom: Option<int>, c: Coordination, minQ: Option<Sized>, maxQ: Option<Sized>)
    requires v <= w
    ensures RequestFor(MemoryKind, v, headroom, c, minQ, maxQ).milli <= RequestFor(MemoryKind, w, headroom, c, minQ, maxQ).milli
  {
    HeadroomMonotone(MemoryKind, v, w, headroom);
    HeadroomMonotone(MemoryKind, w, w, headroom);
    MemoryOrdered(WithHeadroom(MemoryKind, v, headroom), WithHeadroom(MemoryKind, w, headroom), c, minQ, maxQ);
  }
}
