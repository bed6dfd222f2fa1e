/** The preset, bypass and hold state machine. */
module Controls {
  import opened Numbers
  import opened Config

  /** The state of the speed controls. `held` overrides `bypassed`, which overrides `selected`. */
  datatype Controls = Controls(
    steps: seq<real>, selected: real, previousNonunity: Option<real>, bypassed: bool, held: Option<real>)

  function Effective(c: Controls): real {
    if c.held.Some? then c.held.value else if c.bypassed then 1.0 else c.selected
  }

  function Released(c: Controls): Controls {
    c.(held := None)
  }

  function Activated(c: Controls, rate: real): Controls {
    Controls(c.steps, rate, if rate != 1.0 then Some(rate) else c.previousNonunity, rate == 1.0, None)
  }

  function Unity(c: Controls): Controls {
    c.(held := None, selected := 1.0, bypassed := true)
  }

  function Toggled(c: Controls): Controls {
    if !c.bypassed then c.(held := None, bypassed := true)
    else if c.previousNonunity.Some? then
      c.(held := None, selected := c.previousNonunity.value, bypassed := false)
    else c.(held := None)
  }

  /** `n` is the slowest configured step faster than `rate`; there is none when `n` is `None`. */
  ghost predicate NextFaster(steps: seq<real>, rate: real, n: Option<real>) {
    if n.Some? then n.value in steps && rate < n.value && forall s | s in steps && rate < s :: n.value <= s
    else forall s | s in steps :: s <= rate
  }

  ghost predicate NextSlower(steps: seq<real>, rate: real, n: Option<real>) {
    if n.Some? then n.value in steps && n.value < rate && forall s | s in steps && s < rate :: s <= n.value
    else forall s | s in steps :: rate <= s
  }

  /** The first step above `rate`, found from the slow end. */
  function FirstAbove(steps: seq<real>, rate: real): (n: Option<real>)
    requires Increasing(steps)
    ensures NextFaster(steps, rate, n)
  {
    if steps == [] then None
    else if rate < steps[0] then Some(steps[0])
    else
      assert steps == [steps[0]] + steps[1..];
      FirstAbove(steps[1..], rate)
  }

  /** The first step below `rate`, found from the fast end. */
  function FirstBelow(steps: seq<real>, rate: real): (n: Option<real>)
    requires Increasing(steps)
    ensures NextSlower(steps, rate, n)
  {
    if steps == [] then None
    else
      var last := |steps| - 1;
      if steps[last] < rate then Some(steps[last])
      else
        assert steps == steps[..last] + [steps[last]];
        FirstBelow(steps[..last], rate)
  }

  function StepTo(c: Controls, step: Option<real>): Controls {
    if step.Some? then Activated(c, step.value) else Released(c)
  }

  function Increased(c: Controls): Controls
    requires Increasing(c.steps)
  {
    StepTo(c, FirstAbove(c.steps, Effective(Released(c))))
  }

  function Decreased(c: Controls): Controls
    requires Increasing(c.steps)
  {
    StepTo(c, FirstBelow(c.steps, Effective(Released(c))))
  }

  /** The rate last seen other than 1 to be restored by the first toggle: the initial one, else the
      slowest step above 1, else the fastest below it. */
  function InitialPrevious(steps: seq<real>, initial: real): Option<real>
    requires Increasing(steps)
  {
    if initial != 1.0 then Some(initial)
    else if FirstAbove(steps, 1.0).Some? then FirstAbove(steps, 1.0)
    else FirstBelow(steps, 1.0)
  }

  function Initial(s: SpeedSettings): Controls
    requires WellFormed(s)
  {
    var initial := s.initialMultiplier.value;
    Controls(Values(s.steps), initial, InitialPrevious(Values(s.steps), initial),
             !s.enabled || initial == 1.0, None)
  }

  class SpeedControlState {
    var steps: seq<real>
    var selected: real
    var previousNonunity: Option<real>
    var bypassed: bool
    var heldMultiplier: Option<real>

    ghost predicate Valid()
      reads this
    {
      Increasing(steps)
    }

    ghost function State(): Controls
      reads this
    {
      Controls(steps, selected, previousNonunity, bypassed, heldMultiplier)
    }

    static method Create(s: SpeedSettings) returns (r: Result<SpeedControlState, SpeedProfileError>)
      ensures r.Ok? <==> WellFormed(s)
      ensures r.Ok? ==> fresh(r.value) && r.value.Valid() && r.value.State() == Initial(s)
      ensures r.Err? ==> Err(r.error) == Validate(s)
    {
      ValidationIsExact(s);
      var v := Validate(s);
      if v.Err? {
        return Err(v.error);
      }
      var c := new SpeedControlState(s);
      return Ok(c);
    }

    constructor (s: SpeedSettings)
      requires WellFormed(s)
      ensures Valid() && State() == Initial(s)
    {
      var initial := s.initialMultiplier.value;
      var previous := Some(initial);
      if initial == 1.0 {
        previous := FirstAbove(Values(s.steps), 1.0);
        if previous.None? {
          previous := FirstBelow(Values(s.steps), 1.0);
        }
      }
      steps := Values(s.steps);
      selected := initial;
      previousNonunity := previous;
      bypassed := !s.enabled || initial == 1.0;
      heldMultiplier := None;
    }

    method EffectiveMultiplier() returns (rate: real)
      ensures rate == Effective(State())
    {
      if heldMultiplier.Some? {
        return heldMultiplier.value;
      } else if bypassed {
        return 1.0;
      }
      return selected;
    }

    method BeginHold(multiplier: F64) returns (ok: bool)
      modifies `heldMultiplier
      ensures ok <==> multiplier.Finite? && multiplier.value in steps
      ensures State() == if ok then old(State()).(held := Some(multiplier.value)) else old(State())
    {
      if multiplier.NonFinite? || multiplier.value !in steps {
        return false;
      }
      heldMultiplier := Some(multiplier.value);
      return true;
    }

    method EndHold() returns (rate: real)
      modifies `heldMultiplier
      ensures State() == Released(old(State())) && rate == Effective(State())
    {
      heldMultiplier := None;
      rate := EffectiveMultiplier();
    }

    method Increase() returns (rate: real)
      requires Valid()
      modifies this
      ensures Valid() && State() == Increased(old(State())) && rate == Effective(State())
    {
      var current := EndHold();
      var next := FirstAbove(steps, current);
      if next.Some? {
        Activate(next.value);
      }
      rate := EffectiveMultiplier();
    }

    method Decrease() returns (rate: real)
      requires Valid()
      modifies this
      ensures Valid() && State() == Decreased(old(State())) && rate == Effective(State())
    {
      var current := EndHold();
      var previous := FirstBelow(steps, current);
      if previous.Some? {
        Activate(previous.value);
      }
      rate := EffectiveMultiplier();
    }

    method SelectPreset(multiplier: F64) returns (ok: bool)
      modifies this
      ensures ok <==> multiplier.Finite? && multiplier.value in old(steps)
      ensures State() == if ok then Activated(old(State()), multiplier.value) else old(State())
    {
      if multiplier.NonFinite? || multiplier.value !in steps {
        return false;
      }
      Activate(multiplier.value);
      return true;
    }

    method Toggle() returns (rate: real)
      modifies this
      ensures State() == Toggled(old(State())) && rate == Effective(State())
    {
      var _ := EndHold();
      if !bypassed {
        bypassed := true;
      } else if previousNonunity.Some? {
        selected := previousNonunity.value;
        bypassed := false;
      }
      rate := EffectiveMultiplier();
    }

    method Reset() returns (rate: real)
      modifies this
      ensures State() == Unity(old(State())) && rate == Effective(State())
    {
      var _ := EndHold();
      selected := 1.0;
      bypassed := true;
      rate := EffectiveMultiplier();
    }

    method Activate(multiplier: real)
      modifies this
      ensures State() == Activated(old(State()), multiplier)
    {
      var _ := EndHold();
      selected := multiplier;
      bypassed := multiplier == 1.0;
      if multiplier != 1.0 {
        previousNonunity := Some(multiplier);
      }
    }
  }

  /** The settings of a session that can never run at any rate but 1. */
  predicate OnlyRealTime(s: SpeedSettings)
    requires WellFormed(s)
  {
    s.initialMultiplier.value == 1.0 && |s.steps| == 1
  }

  /** What holds of the controls of every session built from settings `s`: an active speed is never 1
      and is the one a toggle would bring back, a hold is a configured step, and every rate that can
      take effect lies within the configured range. A speed to come back to is always remembered, unless
      the settings have none. */
  ghost predicate Consistent(s: SpeedSettings, c: Controls)
    requires WellFormed(s)
  {
    && c.steps == Values(s.steps)
    && (!c.bypassed ==> c.selected != 1.0 && c.previousNonunity == Some(c.selected))
    && (c.previousNonunity.Some? ==> c.previousNonunity.value != 1.0 && WithinRange(s, c.previousNonunity.value))
    && WithinRange(s, c.selected)
    && (c.held.Some? ==> c.held.value in c.steps)
    && (c.previousNonunity.None? <==> OnlyRealTime(s))
  }

  lemma NoPreviousExactly(steps: seq<real>)
    requires Increasing(steps) && 1.0 in steps
    ensures InitialPrevious(steps, 1.0).None? <==> |steps| == 1
  {
    var i :| 0 <= i < |steps| && steps[i] == 1.0;
    if 1 < |steps| {
      var j := if i == 0 then 1 else 0;
      assert steps[j] in steps && (steps[j] < 1.0 || 1.0 < steps[j]);
    }
  }

  lemma InitialIsConsistent(s: SpeedSettings)
    requires WellFormed(s)
    ensures Consistent(s, Initial(s))
  {
    NoPreviousExactly(Values(s.steps));
  }

  lemma EffectiveIsValid(s: SpeedSettings, c: Controls)
    requires WellFormed(s) && Consistent(s, c)
    ensures WithinRange(s, Effective(c)) && 0.0 < Effective(c)
  {
  }

  lemma PresetsKeepConsistency(s: SpeedSettings, c: Controls, rate: real)
    requires WellFormed(s) && Consistent(s, c) && rate in c.steps
    ensures Consistent(s, Activated(c, rate)) && Consistent(s, c.(held := Some(rate)))
  {
  }

  /** Every operation keeps the controls consistent. */
  lemma OperationsKeepConsistency(s: SpeedSettings, c: Controls)
    requires WellFormed(s) && Consistent(s, c)
    ensures Consistent(s, Released(c)) && Consistent(s, Unity(c)) && Consistent(s, Toggled(c))
    ensures Consistent(s, Increased(c)) && Consistent(s, Decreased(c))
  {
  }

  /** Toggling twice always restores the effective rate of a released control, and restores the
      controls themselves exactly when there was a speed to come back from: the selection forgotten
      by a reset is replaced by the remembered one. */
  lemma ToggleTwice(s: SpeedSettings, c: Controls)
    requires WellFormed(s) && Consistent(s, c) && c.held.None?
    ensures Effective(Toggled(Toggled(c))) == Effective(c)
    ensures Toggled(Toggled(c)) == c <==>
            c.previousNonunity.None? || c.previousNonunity.value == c.selected
  {
  }

  /** At the start, toggling twice restores the controls exactly if the initial speed is not 1 or there is no
      other step; after a reset, exactly if both the initial speed and the only step are 1. */
  lemma ToggleTwiceAtRest(s: SpeedSettings, c: Controls)
    requires WellFormed(s) && Consistent(s, c)
    ensures Toggled(Toggled(Initial(s))) == Initial(s) <==> s.initialMultiplier.value != 1.0 || |s.steps| == 1
    ensures Toggled(Toggled(Unity(c))) == Unity(c) <==> OnlyRealTime(s)
  {
    InitialIsConsistent(s);
  }

  /** The speed remembered at the start: the initial one, unless that is 1; then the slowest step above 1, and only if
      there is none, the fastest step below it. */
  lemma InitialRemembers(s: SpeedSettings)
    requires WellFormed(s)
    ensures var steps, remembered := Values(s.steps), Initial(s).previousNonunity;
            if s.initialMultiplier.value != 1.0 then remembered == Some(s.initialMultiplier.value)
            else if exists r :: r in steps && 1.0 < r then remembered.Some? && NextFaster(steps, 1.0, remembered)
            else NextSlower(steps, 1.0, remembered)
    ensures Initial(s).bypassed <==> !s.enabled || s.initialMultiplier.value == 1.0
  {
  }

  const DISABLED_SETTINGS := SpeedSettings(false, Finite(1.0), 0, Finite(0.5), Finite(2.0), [Finite(1.0), Finite(1.5)])

  /** One start from which toggling twice does not lead back: the step 1.5 takes the place of the selection. */
  lemma ToggleTwiceCanChangeTheControls()
    ensures WellFormed(DISABLED_SETTINGS)
    ensures Toggled(Toggled(Initial(DISABLED_SETTINGS))) == Initial(DISABLED_SETTINGS).(selected := 1.5)
    ensures Toggled(Toggled(Initial(DISABLED_SETTINGS))) != Initial(DISABLED_SETTINGS)
  {
    var steps := Values(DISABLED_SETTINGS.steps);
    assert steps[0] == 1.0 && steps[1] == 1.5;
    assert FirstAbove(steps, 1.0) == Some(1.5);
  }

  /** A step up stays put exactly at the fastest step, and otherwise a step down undoes it. */
  lemma StepUpThenDown(s: SpeedSettings, c: Controls)
    requires WellFormed(s) && Consistent(s, c) && c.held.None? && Effective(c) in c.steps
    ensures Effective(Increased(c)) == Effective(c) <==> forall r | r in c.steps :: r <= Effective(c)
    ensures Effective(Increased(c)) != Effective(c) ==> Effective(Decreased(Increased(c))) == Effective(c)
  {
  }

  lemma StepDownThenUp(s: SpeedSettings, c: Controls)
    requires WellFormed(s) && Consistent(s, c) && c.held.None? && Effective(c) in c.steps
    ensures Effective(Decreased(c)) == Effective(c) <==> forall r | r in c.steps :: Effective(c) <= r
    ensures Effective(Decreased(c)) != Effective(c) ==> Effective(Increased(Decreased(c))) == Effective(c)
  {
  }
}
