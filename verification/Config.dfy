/** Speed settings and their validation. */
module Config {
  import opened Numbers

  datatype SpeedSettings = SpeedSettings(
    enabled: bool,
    initialMultiplier: F64,
    startupDurationMs: U32,
    minMultiplier: F64,
    maxMultiplier: F64,
    steps: seq<F64>)

  datatype SpeedProfileError =
    | NotFiniteAndPositive
    | RangeExcludesOne
    | InitialOutsideRange
    | StartupTooLong
    | NoSteps
    | StepOutsideRange
    | StepsNotIncreasing
    | StepsExcludeOne
    | BadHotkeys(hotkeys: HotkeyError)
    | UnsupportedVersion
    | InvalidIdentity
    | DuplicateBottle
    | DuplicateExecutable

  datatype HotkeyError = BadChord | HoldNotAStep | HoldDuration | ReservedKey | DuplicateChord

  predicate FinitePositive(x: F64) {
    x.Finite? && 0.0 < x.value
  }

  function Validate(s: SpeedSettings): Result<(), SpeedProfileError> {
    if !(FinitePositive(s.initialMultiplier) && FinitePositive(s.minMultiplier)
         && FinitePositive(s.maxMultiplier)) then
      Err(NotFiniteAndPositive)
    else if s.minMultiplier.value > 1.0 || s.maxMultiplier.value < 1.0 then
      Err(RangeExcludesOne)
    else if s.initialMultiplier.value < s.minMultiplier.value
            || s.initialMultiplier.value > s.maxMultiplier.value then
      Err(InitialOutsideRange)
    else if s.startupDurationMs > 60_000 then
      Err(StartupTooLong)
    else if s.steps == [] then
      Err(NoSteps)
    else if exists i | 0 <= i < |s.steps| ::
              s.steps[i].NonFinite? || s.steps[i].value < s.minMultiplier.value
              || s.steps[i].value > s.maxMultiplier.value then
      Err(StepOutsideRange)
    else if exists i | 0 <= i < |s.steps| - 1 :: s.steps[i].value >= s.steps[i + 1].value then
      Err(StepsNotIncreasing)
    else if Finite(1.0) !in s.steps then
      Err(StepsExcludeOne)
    else
      Ok(())
  }

  ghost predicate Increasing(steps: seq<real>) {
    forall i, j :: 0 <= i < j < |steps| ==> steps[i] < steps[j]
  }

  /** The values of a list of finite multipliers. */
  function Values(steps: seq<F64>): (r: seq<real>)
    requires forall i :: 0 <= i < |steps| ==> steps[i].Finite?
    ensures |r| == |steps| && forall i :: 0 <= i < |steps| ==> steps[i] == Finite(r[i])
  {
    seq(|steps|, i requires 0 <= i < |steps| => steps[i].value)
  }

  ghost predicate WithinRange(s: SpeedSettings, rate: real)
    requires s.minMultiplier.Finite? && s.maxMultiplier.Finite?
  {
    s.minMultiplier.value <= rate <= s.maxMultiplier.value
  }

  /** What a validated profile guarantees to everything built from it. */
  ghost predicate WellFormed(s: SpeedSettings) {
    && FinitePositive(s.minMultiplier) && s.maxMultiplier.Finite? && s.initialMultiplier.Finite?
    && WithinRange(s, 1.0) && WithinRange(s, s.initialMultiplier.value)
    && s.startupDurationMs <= 60_000
    && (forall i :: 0 <= i < |s.steps| ==> s.steps[i].Finite? && WithinRange(s, s.steps[i].value))
    && Increasing(Values(s.steps)) && 1.0 in Values(s.steps)
  }

  /** Comparing neighbours is enough: validation accepts exactly the well-formed settings. */
  lemma ValidationIsExact(s: SpeedSettings)
    ensures Validate(s).Ok? <==> WellFormed(s)
  {
    if forall i :: 0 <= i < |s.steps| ==> s.steps[i].Finite? {
      var v := Values(s.steps);
      if forall i :: 0 <= i < |v| - 1 ==> v[i] < v[i + 1] {
        NeighboursIncrease(v);
      }
      if Finite(1.0) in s.steps {
        var i :| 0 <= i < |s.steps| && s.steps[i] == Finite(1.0);
        assert v[i] == 1.0;
      }
      if Validate(s).Ok? {
        assert forall i :: 0 <= i < |v| - 1 ==> v[i] < v[i + 1] by {
          forall i | 0 <= i < |v| - 1 ensures v[i] < v[i + 1] {
            assert !(s.steps[i].value >= s.steps[i + 1].value);
          }
        }
      }
      if WellFormed(s) {
        assert FinitePositive(s.initialMultiplier) && FinitePositive(s.maxMultiplier);
        forall i | 0 <= i < |v| - 1 ensures s.steps[i].value < s.steps[i + 1].value {
          assert v[i] < v[i + 1];
        }
      }
    }
  }

  lemma {:induction false} NeighboursIncrease(v: seq<real>)
    requires forall i :: 0 <= i < |v| - 1 ==> v[i] < v[i + 1]
    ensures Increasing(v)
  {
    if v != [] {
      var init := v[..|v| - 1];
      NeighboursIncrease(init);
      forall i, j | 0 <= i < j < |v| ensures v[i] < v[j] {
        if j < |v| - 1 {
          assert init[i] < init[j];
        } else if i < j - 1 {
          assert init[i] < init[j - 1];
        }
      }
    }
  }
}
