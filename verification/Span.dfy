/** Equally spaced instants, and which of them a time is nearest. */
module Span {
  import opened Common
  import opened Arithmetic

  const MAX_HISTORY_POINTS: int := 300

  datatype Span = Span(start: Time, end: Time, step: int)

  /** One more than the steps between start and end. */
  function Instants(s: Span): int
    requires s.step > 0
  {
    Quo(s.end - s.start, s.step) + 1
  }

  /** Which instant, counted from zero at the start, a time belongs to: the nearest, and none beyond half a step outside. */
  function Index(s: Span, t: Time): Option<int>
    requires s.step > 0
  {
    var i := Quo(t - s.start + Quo(s.step, 2), s.step);
    if t >= s.start - Quo(s.step, 2) && i < Instants(s) then Some(i) else None
  }

  /** Steps are counted back from `end`, so the first instant may come after `start`. */
  function SpanOf(start: Time, end: Time, hint: int): (s: Span)
    ensures s.step > 0
  {
    var unit := Max(hint, SECOND);
    var d := end - start;
    var units :=
      if d > 0 then
        var finest := Quo(d + MAX_HISTORY_POINTS - 2, MAX_HISTORY_POINTS - 1);
        Max(Quo(finest + unit - 1, unit), 1)
      else 1;
    MulMonotone(1, units, unit);
    var step := units * unit;
    var steps := Max(Quo(d, step), 0);
    Span(end - steps * step, end, step)
  }

  /** Of the positive multiples of `max(hint, 1s)`, the step is the least that reads the range at 300 instants. */
  lemma StepIsLeast(start: Time, end: Time, hint: int, k: int)
    requires end > start
    ensures var s := SpanOf(start, end, hint);
            var unit := Max(hint, SECOND);
            && s.step % unit == 0
            && 299 * s.step >= end - start
            && (k > 0 && 299 * (k * unit) >= end - start ==> s.step <= k * unit)
  {
    var unit := Max(hint, SECOND);
    var finest := (end - start + 298) / 299;
    var units := (finest + unit - 1) / unit;
    var step := units * unit;
    CeilingReaches(end - start, 299);
    CeilingReaches(finest, unit);
    QuotientMonotone(unit, finest + unit - 1, unit);
    assert SpanOf(start, end, hint).step == step;
    QuotientUnique(step, unit, units, 0);
    if k > 0 && (k * unit) * 299 >= end - start {
      CeilingIsLeast(end - start, 299, k * unit);
      CeilingIsLeast(finest, unit, k);
      MulMonotone(units, k, unit);
    }
  }

  /** How many whole steps the span of `[start, end]` reads before `end`. */
  function StepsOf(start: Time, end: Time, hint: int): int {
    Max(Quo(end - start, SpanOf(start, end, hint).step), 0)
  }

  lemma SpanShape(start: Time, end: Time, hint: int)
    ensures var s := SpanOf(start, end, hint);
            && 0 <= StepsOf(start, end, hint) * s.step
            && s.end == end && s.start == end - StepsOf(start, end, hint) * s.step
            && Instants(s) == StepsOf(start, end, hint) + 1
  {
    var s := SpanOf(start, end, hint);
    var steps := StepsOf(start, end, hint);
    MulMonotone(0, steps, s.step);
    QuotientUnique(steps * s.step, s.step, steps, 0);
  }

  /** The span ends at `end`, starts within one step after `start`, and has at most 300 instants, the last at `end`. */
  lemma SpanCoversRange(start: Time, end: Time, hint: int)
    ensures var s := SpanOf(start, end, hint);
            && s.end == end
            && 1 <= Instants(s) <= 300
            && s.start + (Instants(s) - 1) * s.step == end
            && (end >= start ==> start <= s.start < start + s.step)
            && (end < start ==> s.start == end)
  {
    var s := SpanOf(start, end, hint);
    SpanShape(start, end, hint);
    if end > start {
      StepIsLeast(start, end, hint, 1);
      Euclid(end - start, s.step);
      QuotientMonotone(end - start, 299 * s.step, s.step);
      QuotientUnique(299 * s.step, s.step, 299, 0);
      QuotientMonotone(0, end - start, s.step);
    } else {
      QuotientMonotone(0, start - end, s.step);
    }
  }

  /** Every instant of a span is the instant its own time belongs to. */
  lemma IndexOfInstant(start: Time, end: Time, hint: int, i: int)
    requires var s := SpanOf(start, end, hint); 0 <= i < Instants(s)
    ensures var s := SpanOf(start, end, hint); Index(s, s.start + i * s.step) == Some(i)
  {
    var s := SpanOf(start, end, hint);
    MulMonotone(0, i, s.step);
    QuotientUnique(i * s.step + s.step / 2, s.step, i, s.step / 2);
  }

  /** An accepted time is mapped to an instant of the span no further than half a step away. */
  lemma IndexIsNearest(start: Time, end: Time, hint: int, t: Time)
    requires Index(SpanOf(start, end, hint), t).Some?
    ensures var s := SpanOf(start, end, hint);
            var i := Index(s, t).value;
            && 0 <= i < Instants(s)
            && -(s.step / 2) <= t - (s.start + i * s.step) <= s.step / 2
  {
    var s := SpanOf(start, end, hint);
    var a := t - s.start + s.step / 2;
    QuotientMonotone(0, a, s.step);
    Euclid(a, s.step);
  }

  /** A time is refused exactly when it lies beyond half a step outside the span. */
  lemma IndexRefusesOutside(start: Time, end: Time, hint: int, t: Time)
    ensures var s := SpanOf(start, end, hint);
            Index(s, t).None? <==> t < s.start - s.step / 2 || t >= s.end + s.step - s.step / 2
  {
    var s := SpanOf(start, end, hint);
    SpanShape(start, end, hint);
    var a := t - s.start + s.step / 2;
    var n := Instants(s);
    Distribute(n - 1, 1, s.step);
    assert s.end + s.step == s.start + n * s.step;
    if a >= 0 {
      Euclid(a, s.step);
      QuotientUnique(n * s.step, s.step, n, 0);
      if a >= n * s.step {
        QuotientMonotone(n * s.step, a, s.step);
      } else {
        Distribute(a / s.step, n, s.step);
        if a / s.step >= n {
          MulMonotone(n, a / s.step, s.step);
        }
      }
    }
  }
}
