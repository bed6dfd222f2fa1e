/** Projection of one virtual performance counter into the four Windows timer domains. */
module Timers {
  import opened Numbers
  import opened Clock

  /** The constants a timer set is created with. */
  datatype Origins = Origins(qpc: U64, frequency: U64, tickCount64: U64, timeGetTime: U32)

  datatype TimerSnapshot = TimerSnapshot(
    performanceCounter: U64, tickCount64: U64, tickCount: U32, timeGetTime: U32)

  datatype TimerInitError = InvalidFrequency

  /** Virtual milliseconds since the origin; the product is formed in 128 bits, so it is exact. */
  function ElapsedMs(o: Origins, virtualQpc: U64): (ms: U64)
    requires 0 < o.frequency
  {
    var exact := SatSub(virtualQpc, o.qpc) * 1000 / o.frequency;
    if exact <= MAX_U64 then exact else MAX_U64
  }

  function Project(o: Origins, virtualQpc: U64): TimerSnapshot
    requires 0 < o.frequency
  {
    var ms := ElapsedMs(o, virtualQpc);
    var ticks := SatAdd(o.tickCount64, ms);
    TimerSnapshot(virtualQpc, ticks, ticks % TWO_TO_32, (o.timeGetTime + ms) % TWO_TO_32)
  }

  /** The arithmetic of a sample: wide for the quotient, saturating for the tick, and wrapping for the rest. */
  method SampleAt(o: Origins, virtualQpc: U64) returns (s: TimerSnapshot)
    requires 0 < o.frequency
    ensures s == Project(o, virtualQpc)
  {
    var scaledDelta := SatSub(virtualQpc, o.qpc);
    var wide := scaledDelta * 1000 / o.frequency;
    var elapsedMs: U64 := if wide <= MAX_U64 then wide else MAX_U64;
    var ticks := SatAdd(o.tickCount64, elapsedMs);
    LowHalfAdds(o.timeGetTime, elapsedMs);
    s := TimerSnapshot(virtualQpc, ticks, ticks % TWO_TO_32,
                       (o.timeGetTime + elapsedMs % TWO_TO_32) % TWO_TO_32);
  }

  class WindowsTimers {
    const clock: VirtualClock
    const origins: Origins

    ghost predicate Valid()
      reads this, clock
    {
      clock.Valid() && 0 < origins.frequency
    }

    static method Create(scale: Scaling, o: Origins) returns (r: Result<WindowsTimers, TimerInitError>)
      requires Lawful(scale)
      ensures r.Ok? <==> 0 < o.frequency
      ensures r.Ok? ==>
                && r.value.Valid() && fresh(r.value) && fresh(r.value.clock)
                && r.value.origins == o && r.value.clock.scale == scale
                && r.value.clock.Line() == Timeline(o.qpc, o.qpc, o.qpc, 1.0)
    {
      if o.frequency == 0 {
        return Err(InvalidFrequency);
      }
      var timers := new WindowsTimers(scale, o);
      return Ok(timers);
    }

    constructor (scale: Scaling, o: Origins)
      requires Lawful(scale) && 0 < o.frequency
      ensures Valid() && fresh(clock) && origins == o && clock.scale == scale
      ensures clock.Line() == Timeline(o.qpc, o.qpc, o.qpc, 1.0)
    {
      clock := new VirtualClock(scale, o.qpc, o.qpc);
      origins := o;
    }

    method Sample(realQpc: U64) returns (s: TimerSnapshot)
      requires Valid()
      modifies clock
      ensures Valid() && clock.Line() == At(old(clock.Line()), realQpc)
      ensures s == Project(origins, Virtual(clock.scale, clock.Line()))
    {
      var virtualQpc := clock.Sample(realQpc);
      s := SampleAt(origins, virtualQpc);
    }

    method SetMultiplier(realQpc: U64, multiplier: F64) returns (r: Result<TimerSnapshot, ClockError>)
      requires Valid()
      modifies clock
      ensures Valid()
      ensures multiplier.Finite? && 0.0 < multiplier.value ==>
                && clock.Line() == Cut(clock.scale, old(clock.Line()), realQpc, multiplier.value)
                && r == Ok(Project(origins, Virtual(clock.scale, At(old(clock.Line()), realQpc))))
      ensures !(multiplier.Finite? && 0.0 < multiplier.value) ==>
                clock.Line() == old(clock.Line()) && r == Err(InvalidMultiplier)
    {
      var changed := clock.SetMultiplier(realQpc, multiplier);
      if changed.Err? {
        return Err(changed.error);
      }
      var s := Sample(realQpc);
      return Ok(s);
    }

    method Reset(realQpc: U64) returns (s: TimerSnapshot)
      requires Valid()
      modifies clock
      ensures Valid() && clock.Line() == Cut(clock.scale, old(clock.Line()), realQpc, 1.0)
      ensures s == Project(origins, Virtual(clock.scale, At(old(clock.Line()), realQpc)))
    {
      var _ := clock.Reset(realQpc);
      s := Sample(realQpc);
    }
  }

  /** Truncating one addend first does not change a wrapping sum. */
  lemma LowHalfAdds(a: nat, b: nat)
    ensures (a + b % TWO_TO_32) % TWO_TO_32 == (a + b) % TWO_TO_32
  {
  }

  /** A set of timers starts at its origins, and the elapsed time is counted in whole milliseconds: `ms` of them have
      passed as long as the next one is not complete. */
  lemma MillisecondsAreWhole(o: Origins, v: U64)
    requires 0 < o.frequency && o.qpc <= v
    ensures Project(o, o.qpc) == TimerSnapshot(o.qpc, o.tickCount64, o.tickCount64 % TWO_TO_32, o.timeGetTime)
    ensures var ms := ElapsedMs(o, v);
            ms < MAX_U64 ==> ms * o.frequency <= (v - o.qpc) * 1000 < (ms + 1) * o.frequency
    ensures Project(o, v).tickCount64 == SatAdd(o.tickCount64, ElapsedMs(o, v))
  {
    var product := (v - o.qpc) * 1000;
    WholeQuotient(product, o.frequency);
    assert SatSub(o.qpc, o.qpc) * 1000 == 0 && 0 / o.frequency == 0;
  }

  lemma WholeQuotient(n: nat, d: nat)
    requires 0 < d
    ensures n / d * d <= n < (n / d + 1) * d
  {
    var q, r := n / d, n % d;
    assert n == d * q + r;
    assert (q + 1) * d == q * d + d;
  }

  lemma QuotientIsMonotone(a: nat, b: nat, d: nat)
    requires a <= b && 0 < d
    ensures a / d <= b / d
  {
    var p, q := a / d, b / d;
    var r := p - q - 1;
    assert b < (q + 1) * d && p * d <= a;
    assert p * d == (q + 1) * d + r * d;
  }

  /** The counter and the 64-bit tick are monotone in virtual time. */
  lemma ProjectionIsMonotone(o: Origins, v: U64, w: U64)
    requires 0 < o.frequency && v <= w
    ensures Project(o, v).performanceCounter <= Project(o, w).performanceCounter
    ensures Project(o, v).tickCount64 <= Project(o, w).tickCount64
  {
    QuotientIsMonotone(SatSub(v, o.qpc) * 1000, SatSub(w, o.qpc) * 1000, o.frequency);
  }

  /** The two 32-bit timers are views of the 64-bit tick: one is its low half, the other keeps the
      distance it started at modulo 2^32 for as long as the 64-bit tick has not saturated. */
  predicate DomainsAgree(o: Origins, s: TimerSnapshot) {
    && s.tickCount == s.tickCount64 % TWO_TO_32
    && (s.tickCount64 < MAX_U64 ==>
          (s.timeGetTime + o.tickCount64) % TWO_TO_32 == (o.timeGetTime + s.tickCount64) % TWO_TO_32)
  }

  lemma ThirtyTwoBitTimersFollow(o: Origins, v: U64, s: TimerSnapshot)
    requires 0 < o.frequency && s == Project(o, v)
    ensures DomainsAgree(o, s)
  {
    var ms := ElapsedMs(o, v);
    calc {
      ((o.timeGetTime + ms) % TWO_TO_32 + o.tickCount64) % TWO_TO_32;
    ==
      (o.tickCount64 + (o.timeGetTime + ms) % TWO_TO_32) % TWO_TO_32;
    ==  { LowHalfAdds(o.tickCount64, o.timeGetTime + ms); }
      (o.tickCount64 + o.timeGetTime + ms) % TWO_TO_32;
    }
  }
}
