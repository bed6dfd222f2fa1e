/** One speed session: the controls, the clock they drive, and two leases that expire by themselves. */
module Session {
  import opened Numbers
  import opened Config
  import opened Clock
  import opened Timers
  import opened Controls

  datatype SpeedAction =
    | IncreaseSpeed
    | DecreaseSpeed
    | ToggleSpeed
    | ResetSpeed
    | SelectPreset(rate: F64)
    | HoldStart(multiplier: F64, durationMs: U32)
    | HoldRelease
    | FocusLost

  datatype SpeedSessionError =
    | Profile(profile: SpeedProfileError)
    | Timer(timer: TimerInitError)
    | UnknownPreset
    | InvalidHoldDuration

  /** `hold` and `startup` are the real ticks at which the two leases end. */
  datatype SessionState = SessionState(
    controls: Controls, line: Timeline, hold: Option<U64>, startup: Option<U64>)

  function DurationTicks(frequency: U64, durationMs: U32): U64 {
    var exact := durationMs * frequency / 1000;
    if exact < 1 then 1 else if MAX_U64 < exact then MAX_U64 else exact
  }

  /** The lease that ends first and whether it is the startup lease, which wins a tie. */
  function NextLease(startup: Option<U64>, hold: Option<U64>): Option<(U64, bool)> {
    match (startup, hold)
    case (Some(s), Some(h)) => if s <= h then Some((s, true)) else Some((h, false))
    case (Some(s), None) => Some((s, true))
    case (None, Some(h)) => Some((h, false))
    case (None, None) => None
  }

  /** Expiry of a hold that ends strictly before the startup lease does: back to the speed beneath it. */
  function ExpireHold(scale: Scaling, s: SessionState, t: U64): SessionState {
    if s.hold.Some? && s.hold.value <= t && (s.startup.None? || s.hold.value < s.startup.value) then
      var c := Released(s.controls);
      SessionState(c, Cut(scale, s.line, s.hold.value, Effective(c)), None, s.startup)
    else s
  }

  /** Expiry of the startup lease: real time again, and any hold not already over is cancelled. */
  function ExpireStartup(scale: Scaling, s: SessionState, t: U64): SessionState {
    if s.startup.Some? && s.startup.value <= t && (s.hold.None? || s.startup.value <= s.hold.value) then
      SessionState(Unity(s.controls), Cut(scale, s.line, s.startup.value, 1.0), None, None)
    else s
  }

  /** Every lease due by real tick `t` expires, each at its own deadline. */
  function Settle(scale: Scaling, s: SessionState, t: U64): SessionState {
    ExpireStartup(scale, ExpireHold(scale, s, t), t)
  }

  /** The state after reading the session at `t`. */
  function Observe(scale: Scaling, s: SessionState, t: U64): SessionState {
    var settled := Settle(scale, s, t);
    settled.(line := At(settled.line, t))
  }

  /** What reading the session at `t` returns. */
  function Reading(scale: Scaling, o: Origins, s: SessionState, t: U64): TimerSnapshot
    requires 0 < o.frequency
  {
    Project(o, Virtual(scale, Observe(scale, s, t).line))
  }

  predicate IsStep(c: Controls, rate: F64) {
    rate.Finite? && rate.value in c.steps
  }

  /** The error an action is refused with, if it is. */
  function Refusal(c: Controls, a: SpeedAction): Option<SpeedSessionError> {
    match a
    case SelectPreset(rate) => if IsStep(c, rate) then None else Some(UnknownPreset)
    case HoldStart(rate, ms) =>
      if !(1 <= ms <= 60_000) then Some(InvalidHoldDuration)
      else if IsStep(c, rate) then None else Some(UnknownPreset)
    case _ => None
  }

  function Operate(c: Controls, a: SpeedAction): Controls
    requires Increasing(c.steps) && Refusal(c, a).None?
  {
    match a
    case IncreaseSpeed => Increased(c)
    case DecreaseSpeed => Decreased(c)
    case ToggleSpeed => Toggled(c)
    case ResetSpeed => Unity(c)
    case FocusLost => Unity(c)
    case HoldRelease => Released(c)
    case SelectPreset(rate) => Activated(c, rate.value)
    case HoldStart(rate, ms) => c.(held := Some(rate.value))
  }

  /** An accepted action cuts the timeline at `t`; only the hold actions leave a startup lease running. */
  function Act(scale: Scaling, frequency: U64, s: SessionState, t: U64, a: SpeedAction): SessionState
    requires Increasing(s.controls.steps) && Refusal(s.controls, a).None?
  {
    var c := Operate(s.controls, a);
    SessionState(
      c,
      Cut(scale, s.line, t, Effective(c)),
      if a.HoldStart? then Some(SatAdd(t, DurationTicks(frequency, a.durationMs))) else None,
      if a.HoldStart? || a.HoldRelease? then s.startup else None)
  }

  /** The state after applying an action at `t`, accepted or not. */
  function ApplyAction(scale: Scaling, frequency: U64, s: SessionState, t: U64, a: SpeedAction): SessionState
    requires Increasing(s.controls.steps)
  {
    var settled := Settle(scale, s, t);
    if Refusal(settled.controls, a).None? then Act(scale, frequency, settled, t, a) else settled
  }

  /** The invariant of every reachable session: the clock runs at the rate the controls call for, and a
      hold is in force exactly while it has a deadline. */
  ghost predicate Inv(settings: SpeedSettings, s: SessionState)
    requires WellFormed(settings)
  {
    && Consistent(settings, s.controls)
    && Sound(s.line)
    && s.line.rate == Effective(s.controls)
    && (s.controls.held.Some? <==> s.hold.Some?)
  }

  function Start(scale: Scaling, settings: SpeedSettings, o: Origins): SessionState
    requires WellFormed(settings)
  {
    var c := Initial(settings);
    SessionState(
      c,
      Cut(scale, Timeline(o.qpc, o.qpc, o.qpc, 1.0), o.qpc, Effective(c)),
      None,
      if settings.enabled && settings.initialMultiplier != Finite(1.0) && settings.startupDurationMs > 0
      then Some(SatAdd(o.qpc, DurationTicks(o.frequency, settings.startupDurationMs))) else None)
  }

  lemma StartIsInv(scale: Scaling, settings: SpeedSettings, o: Origins)
    requires Lawful(scale) && WellFormed(settings)
    ensures Inv(settings, Start(scale, settings, o))
    ensures Virtual(scale, Start(scale, settings, o).line) == o.qpc
  {
    InitialIsConsistent(settings);
  }

  lemma SettleKeepsInv(scale: Scaling, settings: SpeedSettings, s: SessionState, t: U64)
    requires Lawful(scale) && WellFormed(settings) && Inv(settings, s)
    ensures Inv(settings, Settle(scale, s, t)) && Inv(settings, Observe(scale, s, t))
  {
  }

  lemma ActKeepsInv(scale: Scaling, frequency: U64, settings: SpeedSettings, s: SessionState, t: U64, a: SpeedAction)
    requires Lawful(scale) && WellFormed(settings) && Inv(settings, s)
    requires Refusal(s.controls, a).None?
    ensures Inv(settings, Act(scale, frequency, s, t, a))
  {
  }

  lemma ApplyKeepsInv(scale: Scaling, frequency: U64, settings: SpeedSettings, s: SessionState, t: U64, a: SpeedAction)
    requires Lawful(scale) && WellFormed(settings) && Inv(settings, s)
    ensures Inv(settings, ApplyAction(scale, frequency, s, t, a))
  {
    SettleKeepsInv(scale, settings, s, t);
    var settled := Settle(scale, s, t);
    if Refusal(settled.controls, a).None? {
      ActKeepsInv(scale, frequency, settings, settled, t, a);
    }
  }

  class SpeedSession {
    const controls: SpeedControlState
    const timers: WindowsTimers
    const qpcFrequency: U64
    ghost const settings: SpeedSettings
    var holdDeadlineQpc: Option<U64>
    var startupDeadlineQpc: Option<U64>

    ghost predicate Valid()
      reads this, controls, timers, timers.clock
    {
      && controls.Valid() && timers.Valid() && qpcFrequency == timers.origins.frequency
      && WellFormed(settings) && Inv(settings, State())
    }

    ghost function State(): SessionState
      reads this, controls, timers, timers.clock
    {
      SessionState(controls.State(), timers.clock.Line(), holdDeadlineQpc, startupDeadlineQpc)
    }

    static method Create(scale: Scaling, settings: SpeedSettings, o: Origins)
      returns (r: Result<SpeedSession, SpeedSessionError>)
      requires Lawful(scale)
      ensures r.Ok? <==> WellFormed(settings) && 0 < o.frequency
      ensures r.Ok? ==>
                && r.value.Valid() && r.value.settings == settings
                && fresh(r.value) && fresh(r.value.controls) && fresh(r.value.timers) && fresh(r.value.timers.clock)
                && r.value.timers.clock.scale == scale && r.value.timers.origins == o
                && r.value.State() == Start(scale, settings, o)
    {
      var controls := SpeedControlState.Create(settings);
      if controls.Err? {
        return Err(Profile(controls.error));
      }
      var timers := WindowsTimers.Create(scale, o);
      if timers.Err? {
        return Err(Timer(timers.error));
      }
      StartIsInv(scale, settings, o);
      InitialIsConsistent(settings);
      EffectiveIsValid(settings, Initial(settings));
      var rate := controls.value.EffectiveMultiplier();
      var _ := timers.value.SetMultiplier(o.qpc, Finite(rate));
      var startup := None;
      if settings.enabled && settings.initialMultiplier != Finite(1.0) && settings.startupDurationMs > 0 {
        startup := Some(SatAdd(o.qpc, DurationTicks(o.frequency, settings.startupDurationMs)));
      }
      var session := new SpeedSession(settings, controls.value, timers.value, o.frequency, startup);
      return Ok(session);
    }

    constructor (ghost settings: SpeedSettings, controls: SpeedControlState, timers: WindowsTimers,
                 qpcFrequency: U64, startup: Option<U64>)
      ensures this.settings == settings && this.controls == controls && this.timers == timers
      ensures this.qpcFrequency == qpcFrequency && startupDeadlineQpc == startup && holdDeadlineQpc == None
    {
      this.settings := settings;
      this.controls, this.timers := controls, timers;
      this.qpcFrequency := qpcFrequency;
      holdDeadlineQpc, startupDeadlineQpc := None, startup;
    }

    method Sample(realQpc: U64) returns (s: TimerSnapshot)
      requires Valid()
      modifies this, controls, timers.clock
      ensures Valid()
      ensures State() == Observe(timers.clock.scale, old(State()), realQpc)
      ensures s == Reading(timers.clock.scale, timers.origins, old(State()), realQpc)
    {
      AdvanceDeadlines(realQpc);
      SettleKeepsInv(timers.clock.scale, settings, State(), realQpc);
      s := timers.Sample(realQpc);
    }

    /** The loop takes the leases in the order they are due and restores each at its own deadline; the
        rate restored is always one the clock accepts, so the code's fallback reset is not needed. */
    method AdvanceDeadlines(realQpc: U64)
      requires Valid()
      modifies this, controls, timers.clock
      ensures Valid() && State() == Settle(timers.clock.scale, old(State()), realQpc)
    {
      ghost var scale := timers.clock.scale;
      while true
        invariant Valid()
        invariant Settle(scale, State(), realQpc) == Settle(scale, old(State()), realQpc)
        decreases startupDeadlineQpc.Some?, holdDeadlineQpc.Some?
      {
        var lease := NextLease(startupDeadlineQpc, holdDeadlineQpc);
        if lease.None? {
          break;
        }
        var (deadline, startup) := lease.value;
        if realQpc < deadline {
          break;
        }
        ghost var before := State();
        ExpireLease(deadline, startup);
        assert State() == if startup then ExpireStartup(scale, before, realQpc) else ExpireHold(scale, before, realQpc);
      }
    }

    /** One lease ends at its own deadline. The rate restored is always one the clock accepts, so the
        code's fallback reset is not needed. */
    method ExpireLease(deadline: U64, startup: bool)
      requires Valid()
      modifies this, controls, timers.clock
      ensures Valid()
      ensures var c := if startup then Unity(old(controls.State())) else Released(old(controls.State()));
              State() == SessionState(c, Cut(timers.clock.scale, old(timers.clock.Line()), deadline, Effective(c)),
                                      None, if startup then None else old(startupDeadlineQpc))
    {
      var restored: real;
      OperationsKeepConsistency(settings, controls.State());
      if startup {
        startupDeadlineQpc := None;
        holdDeadlineQpc := None;
        restored := controls.Reset();
      } else {
        holdDeadlineQpc := None;
        restored := controls.EndHold();
      }
      EffectiveIsValid(settings, controls.State());
      var r := timers.SetMultiplier(deadline, Finite(restored));
      assert r.Ok?;
    }

    /** The part of an action that moves the controls: the rate they then call for and the hold deadline. */
    method OperateControls(realQpc: U64, action: SpeedAction) returns (r: Result<(real, Option<U64>),
        SpeedSessionError>)
      requires controls.Valid()
      modifies controls
      ensures controls.Valid()
      ensures var refusal := Refusal(old(controls.State()), action);
              if refusal.Some? then r == Err(refusal.value) && controls.State() == old(controls.State())
              else
                && controls.State() == Operate(old(controls.State()), action)
                && r == Ok((Effective(controls.State()),
                            if action.HoldStart? then Some(SatAdd(realQpc,
                                DurationTicks(qpcFrequency, action.durationMs)))
                            else None))
    {
      var deadline: Option<U64> := None;
      var multiplier: real;
      match action {
        case IncreaseSpeed => multiplier := controls.Increase();
        case DecreaseSpeed => multiplier := controls.Decrease();
        case ToggleSpeed => multiplier := controls.Toggle();
        case ResetSpeed => multiplier := controls.Reset();
        case SelectPreset(rate) =>
          var ok := controls.SelectPreset(rate);
          if !ok {
            return Err(UnknownPreset);
          }
          multiplier := controls.EffectiveMultiplier();
        case HoldStart(rate, durationMs) =>
          if !(1 <= durationMs <= 60_000) {
            return Err(InvalidHoldDuration);
          }
          var ok := controls.BeginHold(rate);
          if !ok {
            return Err(UnknownPreset);
          }
          var ticks := DurationTicks(qpcFrequency, durationMs);
          deadline := Some(SatAdd(realQpc, ticks));
          multiplier := controls.EffectiveMultiplier();
        case HoldRelease => multiplier := controls.EndHold();
        case FocusLost => multiplier := controls.Reset();
      }
      return Ok((multiplier, deadline));
    }

    method Apply(realQpc: U64, action: SpeedAction) returns (r: Result<TimerSnapshot, SpeedSessionError>)
      requires Valid()
      modifies this, controls, timers.clock
      ensures Valid()
      ensures State() == ApplyAction(timers.clock.scale, qpcFrequency, old(State()), realQpc, action)
      ensures var refusal := Refusal(Settle(timers.clock.scale, old(State()), realQpc).controls, action);
              r == if refusal.Some? then Err(refusal.value)
                   else Ok(Reading(timers.clock.scale, timers.origins, old(State()), realQpc))
    {
      ghost var scale := timers.clock.scale;
      ghost var start := State();
      AdvanceDeadlines(realQpc);
      ghost var settled := State();
      var operated := OperateControls(realQpc, action);
      if operated.Err? {
        return Err(operated.error);
      }
      var (multiplier, newDeadline) := operated.value;
      ActKeepsInv(scale, qpcFrequency, settings, settled, realQpc, action);
      EffectiveIsValid(settings, controls.State());
      var applied := timers.SetMultiplier(realQpc, Finite(multiplier));
      assert applied.Ok?;
      holdDeadlineQpc := newDeadline;
      if !(action.HoldStart? || action.HoldRelease?) {
        startupDeadlineQpc := None;
      }
      assert State() == Act(scale, qpcFrequency, settled, realQpc, action);
      return Ok(applied.value);
    }
  }
}
