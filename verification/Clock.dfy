/** The virtual clock: a piecewise linear timeline, re-anchored at every change of rate. */
module Clock {
  import opened Numbers

  /** What a clock means: since real tick `anchorReal` virtual time has run at `rate` from
      `anchorVirtual`, and `now` is the latest real tick observed. */
  datatype Timeline = Timeline(anchorReal: U64, anchorVirtual: U64, now: U64, rate: real)

  ghost predicate Sound(tl: Timeline) {
    tl.anchorReal <= tl.now && 0.0 < tl.rate
  }

  /** Virtual time at the latest observed real tick. */
  function Virtual(scale: Scaling, tl: Timeline): U64 {
    SatAdd(tl.anchorVirtual, scale(SatSub(tl.now, tl.anchorReal), tl.rate))
  }

  /** The same timeline observed at real tick `t`; an older tick changes nothing. */
  function At(tl: Timeline, t: U64): Timeline {
    tl.(now := Max(tl.now, t))
  }

  /** A change of rate at real tick `t`. */
  function Cut(scale: Scaling, tl: Timeline, t: U64, rate: real): Timeline {
    var observed := At(tl, t);
    Timeline(observed.now, Virtual(scale, observed), observed.now, rate)
  }

  datatype ClockError = InvalidMultiplier

  class VirtualClock {
    const scale: Scaling
    var anchorReal: U64
    var anchorVirtual: U64
    var lastReal: U64
    var lastVirtual: U64
    var rate: real

    /** The stored last value is the projection of the timeline: the two maxima the code takes to
        stay monotone never select a stale value. */
    ghost predicate Valid()
      reads this
    {
      Lawful(scale) && Sound(Line()) && lastVirtual == Virtual(scale, Line())
    }

    ghost function Line(): Timeline
      reads this
    {
      Timeline(anchorReal, anchorVirtual, lastReal, rate)
    }

    constructor (scale: Scaling, realOrigin: U64, virtualOrigin: U64)
      requires Lawful(scale)
      ensures Valid() && this.scale == scale
      ensures Line() == Timeline(realOrigin, virtualOrigin, realOrigin, 1.0)
    {
      this.scale := scale;
      anchorReal, anchorVirtual := realOrigin, virtualOrigin;
      lastReal, lastVirtual := realOrigin, virtualOrigin;
      rate := 1.0;
    }

    method Sample(realTicks: U64) returns (v: U64)
      requires Valid()
      modifies this
      ensures Valid() && Line() == At(old(Line()), realTicks) && v == Virtual(scale, Line())
      ensures old(lastVirtual) <= v == lastVirtual
    {
      lastReal := Max(lastReal, realTicks);
      var elapsed := SatSub(lastReal, anchorReal);
      var scaled := scale(elapsed, rate);
      var projected := SatAdd(anchorVirtual, scaled);
      lastVirtual := Max(lastVirtual, projected);
      v := lastVirtual;
    }

    /** A rejected multiplier leaves the clock as it was, not even sampled. */
    method SetMultiplier(realTicks: U64, multiplier: F64) returns (r: Result<U64, ClockError>)
      requires Valid()
      modifies this
      ensures Valid()
      ensures multiplier.Finite? && 0.0 < multiplier.value ==>
                && Line() == Cut(scale, old(Line()), realTicks, multiplier.value)
                && r == Ok(Virtual(scale, At(old(Line()), realTicks)))
      ensures !(multiplier.Finite? && 0.0 < multiplier.value) ==>
                Line() == old(Line()) && r == Err(InvalidMultiplier)
    {
      if multiplier.NonFinite? || multiplier.value <= 0.0 {
        return Err(InvalidMultiplier);
      }
      var atChange := Sample(realTicks);
      anchorReal := lastReal;
      anchorVirtual := atChange;
      rate := multiplier.value;
      return Ok(atChange);
    }

    method Reset(realTicks: U64) returns (v: U64)
      requires Valid()
      modifies this
      ensures Valid() && Line() == Cut(scale, old(Line()), realTicks, 1.0)
      ensures v == Virtual(scale, At(old(Line()), realTicks))
    {
      var r := SetMultiplier(realTicks, Finite(1.0));
      v := r.value;
    }
  }

  /** Virtual time never runs backwards, whatever ticks are observed in whatever order. */
  lemma VirtualIsMonotone(scale: Scaling, tl: Timeline, t: U64)
    requires Lawful(scale) && Sound(tl)
    ensures Virtual(scale, tl) <= Virtual(scale, At(tl, t))
    ensures Sound(At(tl, t))
  {
  }

  /** A change of rate is continuous: the value read just before it is the value read just after. */
  lemma CutDoesNotJump(scale: Scaling, tl: Timeline, t: U64, rate: real)
    requires Lawful(scale) && Sound(tl) && 0.0 < rate
    ensures Sound(Cut(scale, tl, t, rate))
    ensures Virtual(scale, Cut(scale, tl, t, rate)) == Virtual(scale, At(tl, t))
    ensures At(Cut(scale, tl, t, rate), t) == Cut(scale, tl, t, rate)
  {
  }

  /** Observing earlier is invisible later: to a later observation and to a later cut. */
  lemma EarlierObservationIsForgotten(scale: Scaling, tl: Timeline, s: U64, t: U64, rate: real)
    requires s <= t
    ensures At(At(tl, s), t) == At(tl, t)
    ensures Cut(scale, At(tl, s), t, rate) == Cut(scale, tl, t, rate)
  {
  }
}
