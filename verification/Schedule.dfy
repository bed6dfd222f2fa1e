/** The ideal schedule: an eager machine that lives through every real tick, and the proof that the lazily
    settled session reads exactly what it dictates. */
module Schedule {
  import opened Numbers
  import opened Config
  import opened Clock
  import opened Timers
  import opened Controls
  import opened Session
  import opened SessionLaws

  /** Real time cut into segments, each lived at one rate for a number of ticks. */
  datatype History = Begin | Then(before: History, rate: real, ticks: nat)

  function Cuts(h: History): nat {
    if h.Begin? then 0 else Cuts(h.before) + 1
  }

  /** The eager machine at real tick `now`, in a segment that began `age` ticks ago. */
  datatype Ideal = Ideal(
    controls: Controls, hold: Option<U64>, startup: Option<U64>, now: U64, past: History, rate: real, age: nat)

  /** Everything lived so far, the present segment included. */
  function Whole(e: Ideal): History {
    Then(e.past, e.rate, e.age)
  }

  /** A new segment begins now, at the rate the controls call for. */
  function Switch(e: Ideal, c: Controls, hold: Option<U64>, startup: Option<U64>): Ideal {
    Ideal(c, hold, startup, e.now, Whole(e), Effective(c), 0)
  }

  /** A lease ends on the tick it is due: startup wins a tie and cancels the hold. */
  function Expire(e: Ideal): Ideal {
    if e.startup.Some? && e.startup.value <= e.now then Switch(e, Unity(e.controls), None, None)
    else if e.hold.Some? && e.hold.value <= e.now then Switch(e, Released(e.controls), None, e.startup)
    else e
  }

  function Tick(e: Ideal): Ideal
    requires e.now < MAX_U64
  {
    Expire(e.(now := e.now + 1, age := e.age + 1))
  }

  function Idle(e: Ideal, t: U64): (r: Ideal)
    requires e.now <= t
    ensures r.now == t
    decreases t
  {
    if t == e.now then e else Tick(Idle(e, t - 1))
  }

  function Perform(e: Ideal, frequency: U64, a: SpeedAction): Ideal
    requires Increasing(e.controls.steps)
  {
    if Refusal(e.controls, a).Some? then e
    else
      Expire(Switch(e, Operate(e.controls, a),
                    if a.HoldStart? then Some(SatAdd(e.now, DurationTicks(frequency, a.durationMs))) else None,
                    if a.HoldStart? || a.HoldRelease? then e.startup else None))
  }

  ghost function Origin(w: World): Ideal
    requires Proper(w)
  {
    var s := Start(w.scale, w.settings, w.origins);
    Expire(Ideal(s.controls, None, s.startup, w.origins.qpc, Begin, Effective(s.controls), 0))
  }

  /** The eager machine lives through the calls of a run; polls mean nothing to it. */
  ghost function Live(w: World, ops: seq<Op>, t: U64): (e: Ideal)
    requires Proper(w) && InOrder(w.origins.qpc, ops) && w.origins.qpc <= t
    requires forall i :: 0 <= i < |ops| ==> ops[i].t <= t
    ensures e.now == t && Increasing(e.controls.steps)
    decreases |ops|, t
  {
    if ops == [] then
      StepsStay(Origin(w), t);
      Idle(Origin(w), t)
    else
      var op := ops[|ops| - 1];
      var before := Live(w, ops[..|ops| - 1], op.t);
      var after := if op.Poll? then before else Perform(before, w.origins.frequency, op.action);
      StepsStay(after, t);
      Idle(after, t)
  }

  lemma {:induction false} StepsStay(e: Ideal, t: U64)
    requires e.now <= t
    ensures Idle(e, t).controls.steps == e.controls.steps
    decreases t
  {
    if e.now < t {
      StepsStay(e, t - 1);
    }
  }

  /** Virtual time after a history: each segment adds its own whole ticks. */
  function Lived(scale: Scaling, origin: U64, h: History): U64 {
    if h.Begin? then origin else SatAdd(Lived(scale, origin, h.before), scale(h.ticks, h.rate))
  }

  /** A session state and the machine agree field by field; the machine may have aged since. */
  ghost predicate Same(scale: Scaling, origin: U64, o: SessionState, e: Ideal) {
    && o.controls == e.controls && o.hold == e.hold && o.startup == e.startup
    && e.age <= e.now && o.line.now <= e.now
    && o.line.(now := e.now) == Timeline(e.now - e.age, Lived(scale, origin, e.past), e.now, e.rate)
  }

  /** What a session would show at the machine's tick is what the machine is. */
  ghost predicate Matches(w: World, s: SessionState, e: Ideal)
    requires Proper(w)
  {
    && Inv(w.settings, s) && Timely(s, e.now) && Increasing(e.controls.steps)
    && Same(w.scale, w.origins.qpc, Observe(w.scale, s, e.now), e)
  }

  lemma MatchingReads(w: World, s: SessionState, e: Ideal)
    requires Proper(w) && Matches(w, s, e)
    ensures Virtual(w.scale, Observe(w.scale, s, e.now).line) == Lived(w.scale, w.origins.qpc, Whole(e))
  {
  }

  /** Nothing is due in a state that has just been observed. */
  lemma NothingDue(w: World, s: SessionState, t: U64)
    ensures var o := Observe(w.scale, s, t);
            && (o.hold.Some? ==> t < o.hold.value)
            && (o.startup.Some? ==> t < o.startup.value)
  {
  }

  /** The leases that end now end the same way in both. */
  lemma ExpiryMatches(scale: Scaling, origin: U64, o: SessionState, e: Ideal)
    requires Same(scale, origin, o, e)
    requires (o.hold.Some? ==> e.now <= o.hold.value) && (o.startup.Some? ==> e.now <= o.startup.value)
    ensures Same(scale, origin, Observe(scale, o, e.now), Expire(e)) && Observe(scale, o, e.now).line.now == e.now
  {
  }

  lemma TickStaysSame(scale: Scaling, origin: U64, s: SessionState, e: Ideal)
    requires e.now < MAX_U64
    requires var o := Observe(scale, s, e.now);
             && Same(scale, origin, o, e)
             && (o.hold.Some? ==> e.now < o.hold.value) && (o.startup.Some? ==> e.now < o.startup.value)
             && Observe(scale, o, e.now + 1) == Observe(scale, s, e.now + 1)
    ensures Tick(e).now == e.now + 1 && Tick(e).controls.steps == e.controls.steps
    ensures Same(scale, origin, Observe(scale, s, Tick(e).now), Tick(e))
  {
    ExpiryMatches(scale, origin, Observe(scale, s, e.now), e.(now := e.now + 1, age := e.age + 1));
  }

  /** Real time passes: the session does nothing at all, and still matches. */
  lemma TickMatches(w: World, s: SessionState, e: Ideal)
    requires Proper(w) && Matches(w, s, e) && e.now < MAX_U64
    ensures Matches(w, s, Tick(e))
  {
    NothingDue(w, s, e.now);
    ObserveTwice(w, s, e.now, e.now + 1);
    TickStaysSame(w.scale, w.origins.qpc, s, e);
  }

  lemma {:induction false} IdleMatches(w: World, s: SessionState, e: Ideal, t: U64)
    requires Proper(w) && Matches(w, s, e) && e.now <= t
    ensures Matches(w, s, Idle(e, t))
    decreases t
  {
    if e.now < t {
      IdleMatches(w, s, e, t - 1);
      TickMatches(w, s, Idle(e, t - 1));
    }
  }

  lemma PollMatches(w: World, s: SessionState, e: Ideal)
    requires Proper(w) && Matches(w, s, e)
    ensures Matches(w, Step(w, s, Poll(e.now)), e)
  {
  }

  lemma ActMatches(w: World, o: SessionState, e: Ideal, a: SpeedAction)
    requires Proper(w) && Inv(w.settings, o) && Same(w.scale, w.origins.qpc, o, e) && o.line.now == e.now
    requires Refusal(e.controls, a).None? && Increasing(e.controls.steps)
    requires (o.hold.Some? ==> e.now < o.hold.value) && (o.startup.Some? ==> e.now < o.startup.value)
    ensures var next := Act(w.scale, w.origins.frequency, o, e.now, a);
            Same(w.scale, w.origins.qpc, Observe(w.scale, next, e.now), Perform(e, w.origins.frequency, a))
  {
  }

  lemma ActionMatches(w: World, s: SessionState, e: Ideal, a: SpeedAction)
    requires Proper(w) && Matches(w, s, e)
    ensures Refusal(Settle(w.scale, s, e.now).controls, a) == Refusal(e.controls, a)
    ensures Matches(w, Step(w, s, Do(e.now, a)), Perform(e, w.origins.frequency, a))
  {
    var op := Do(e.now, a);
    StepKeepsInv(w, s, op);
    StepKeepsTimely(w, s, op);
    NothingDue(w, s, e.now);
    SettleKeepsInv(w.scale, w.settings, s, e.now);
    var o := Observe(w.scale, s, e.now);
    if Refusal(e.controls, a).None? {
      ActMatches(w, o, e, a);
      assert Step(w, s, op) == Act(w.scale, w.origins.frequency, o, e.now, a);
    } else {
      ObserveTwice(w, s, e.now, e.now);
    }
  }

  lemma OriginMatches(w: World)
    requires Proper(w)
    ensures Inv(w.settings, Start(w.scale, w.settings, w.origins))
    ensures Matches(w, Start(w.scale, w.settings, w.origins), Origin(w))
  {
    StartIsInv(w.scale, w.settings, w.origins);
  }

  lemma {:induction false} RunMatches(w: World, ops: seq<Op>, t: U64)
    requires Proper(w) && InOrder(w.origins.qpc, ops) && w.origins.qpc <= t
    requires forall i :: 0 <= i < |ops| ==> ops[i].t <= t
    ensures Inv(w.settings, Start(w.scale, w.settings, w.origins))
    ensures Matches(w, Run(w, Start(w.scale, w.settings, w.origins), ops), Live(w, ops, t))
    decreases |ops|
  {
    var s := Start(w.scale, w.settings, w.origins);
    OriginMatches(w);
    if ops == [] {
      IdleMatches(w, s, Origin(w), t);
    } else {
      var init, op := ops[..|ops| - 1], ops[|ops| - 1];
      RunMatches(w, init, op.t);
      var before, ideal := Run(w, s, init), Live(w, init, op.t);
      if op.Poll? {
        PollMatches(w, before, ideal);
        IdleMatches(w, Step(w, before, op), ideal, t);
      } else {
        ActionMatches(w, before, ideal, op.action);
        IdleMatches(w, Step(w, before, op), Perform(ideal, w.origins.frequency, op.action), t);
      }
    }
  }

  /** The lazily settled session refines the ideal schedule: a call at the end of any run in time order
      is accepted or refused as the eager machine's controls decide, and reads exactly the whole ticks
      lived in each of its segments. */
  lemma LazySettlementIsEager(w: World, ops: seq<Op>, last: Op)
    requires Proper(w) && InOrder(w.origins.qpc, ops + [last])
    ensures InOrder(w.origins.qpc, ops) && w.origins.qpc <= last.t && forall i :: 0 <= i < |ops| ==> ops[i].t <= last.t
    ensures Inv(w.settings, Start(w.scale, w.settings, w.origins))
    ensures var s, e := Run(w, Start(w.scale, w.settings, w.origins), ops), Live(w, ops, last.t);
            Output(w, s, last) ==
            if last.Do? && Refusal(e.controls, last.action).Some? then Err(Refusal(e.controls, last.action).value)
            else Ok(Project(w.origins, Lived(w.scale, w.origins.qpc, Whole(e))))
  {
    var all := ops + [last];
    assert all[|ops|] == last && forall i :: 0 <= i < |ops| ==> all[i] == ops[i];
    RunMatches(w, ops, last.t);
    var s, e := Run(w, Start(w.scale, w.settings, w.origins), ops), Live(w, ops, last.t);
    MatchingReads(w, s, e);
    if last.Do? {
      ActionMatches(w, s, e, last.action);
    }
  }

  // Drift

  /** One rate added up over a number of ticks. */
  function Accrued(ticks: nat, rate: real): real {
    if ticks == 0 then 0.0 else Accrued(ticks - 1, rate) + rate
  }

  /** Virtual time lived without any rounding: the sum, over every tick of every segment, of its rate. */
  function Exact(h: History): real {
    if h.Begin? then 0.0 else Exact(h.before) + Accrued(h.ticks, h.rate)
  }

  /** Every real tick adds the rate in force during it, and nothing else adds anything. */
  lemma EachTickAddsTheRate(e: Ideal)
    requires e.now < MAX_U64
    ensures Exact(Whole(Tick(e))) == Exact(Whole(e)) + e.rate
  {
  }

  ghost predicate Forward(h: History) {
    h.Then? ==> 0.0 < h.rate && Forward(h.before)
  }

  /** A scaling that loses less than one tick of the exact product while that fits. */
  ghost predicate LosesLessThanOne(scale: Scaling) {
    forall n: nat, r: real :: 0.0 < r && Accrued(n, r) <= MAX_U64 as real ==>
      0.0 <= Accrued(n, r) - scale(n, r) as real < 1.0
  }

  lemma {:induction false} AccruedIsTheProduct(ticks: nat, rate: real)
    ensures Accrued(ticks, rate) == ticks as real * rate
  {
    if ticks != 0 {
      AccruedIsTheProduct(ticks - 1, rate);
      assert ticks as real * rate == (ticks - 1) as real * rate + rate;
    }
  }

  lemma FloorLosesLessThanOne()
    ensures LosesLessThanOne(FloorScale)
  {
    forall n: nat, r: real | 0.0 < r && Accrued(n, r) <= MAX_U64 as real
      ensures 0.0 <= Accrued(n, r) - FloorScale(n, r) as real < 1.0
    {
      AccruedIsTheProduct(n, r);
      var product := n as real * r;
      assert 0.0 <= product;
      assert product.Floor as real <= product < product.Floor as real + 1.0;
    }
  }

  lemma {:induction false} AccruedIsNonnegative(ticks: nat, rate: real)
    requires 0.0 < rate
    ensures 0.0 <= Accrued(ticks, rate)
  {
    if ticks != 0 {
      AccruedIsNonnegative(ticks - 1, rate);
    }
  }

  lemma {:induction false} ExactIsNonnegative(h: History)
    requires Forward(h)
    ensures 0.0 <= Exact(h)
  {
    if h.Then? {
      ExactIsNonnegative(h.before);
      AccruedIsNonnegative(h.ticks, h.rate);
    }
  }

  /** Each segment loses less than one tick. */
  lemma {:induction false} SegmentsLoseLittle(scale: Scaling, origin: U64, h: History)
    requires LosesLessThanOne(scale)
    requires Forward(h) && origin as real + Exact(h) <= MAX_U64 as real
    ensures var loss := Exact(h) - (Lived(scale, origin, h) as real - origin as real);
            0.0 <= loss <= Cuts(h) as real && (h.Then? ==> loss < Cuts(h) as real)
  {
    if h.Then? {
      ExactIsNonnegative(h.before);
      AccruedIsNonnegative(h.ticks, h.rate);
      SegmentsLoseLittle(scale, origin, h.before);
      assert 0.0 <= Accrued(h.ticks, h.rate) - scale(h.ticks, h.rate) as real < 1.0;
      assert Cuts(h) as real == Cuts(h.before) as real + 1.0;
    }
  }

  lemma {:induction false} IdealRunsForward(w: World, ops: seq<Op>, t: U64)
    requires Proper(w) && InOrder(w.origins.qpc, ops) && w.origins.qpc <= t
    requires forall i :: 0 <= i < |ops| ==> ops[i].t <= t
    ensures Forward(Whole(Live(w, ops, t))) && Consistent(w.settings, Live(w, ops, t).controls)
    decreases |ops|
  {
    if ops == [] {
      InitialIsConsistent(w.settings);
      EffectiveIsValid(w.settings, Initial(w.settings));
      var s := Start(w.scale, w.settings, w.origins);
      SwitchesRunForward(w, Ideal(s.controls, None, s.startup, w.origins.qpc, Begin, Effective(s.controls), 0));
      IdleRunsForward(w, Origin(w), t);
    } else {
      var op := ops[|ops| - 1];
      IdealRunsForward(w, ops[..|ops| - 1], op.t);
      var before := Live(w, ops[..|ops| - 1], op.t);
      if op.Poll? {
        IdleRunsForward(w, before, t);
      } else {
        PerformRunsForward(w, before, op.action);
        IdleRunsForward(w, Perform(before, w.origins.frequency, op.action), t);
      }
    }
  }

  lemma SwitchesRunForward(w: World, e: Ideal)
    requires Proper(w) && Consistent(w.settings, e.controls) && Forward(Whole(e))
    ensures Consistent(w.settings, Expire(e).controls) && Forward(Whole(Expire(e)))
  {
  }

  lemma PerformRunsForward(w: World, e: Ideal, a: SpeedAction)
    requires Proper(w) && Consistent(w.settings, e.controls) && Forward(Whole(e))
    ensures var r := Perform(e, w.origins.frequency, a);
            Consistent(w.settings, r.controls) && Forward(Whole(r))
  {
    if Refusal(e.controls, a).None? {
      OperationsKeepConsistency(w.settings, e.controls);
      if a.SelectPreset? {
        PresetsKeepConsistency(w.settings, e.controls, a.rate.value);
      } else if a.HoldStart? {
        PresetsKeepConsistency(w.settings, e.controls, a.multiplier.value);
      }
      var c := Operate(e.controls, a);
      EffectiveIsValid(w.settings, c);
      SwitchesRunForward(w, Switch(e, c,
        if a.HoldStart? then Some(SatAdd(e.now, DurationTicks(w.origins.frequency, a.durationMs))) else None,
        if a.HoldStart? || a.HoldRelease? then e.startup else None));
    }
  }

  lemma {:induction false} IdleRunsForward(w: World, e: Ideal, t: U64)
    requires Proper(w) && Consistent(w.settings, e.controls) && Forward(Whole(e)) && e.now <= t
    ensures Consistent(w.settings, Idle(e, t).controls) && Forward(Whole(Idle(e, t)))
    decreases t
  {
    if e.now < t {
      IdleRunsForward(w, e, t - 1);
      var before := Idle(e, t - 1);
      var grown := before.(now := before.now + 1, age := before.age + 1);
      SwitchesRunForward(w, grown);
    }
  }

  /** The drift bound. With the floor of the exact product as the scaling, and until the counter saturates, a
      reading is never ahead of the exact integral of the ideal rate and less than one tick behind it for each
      segment. */
  lemma DriftIsBelowOneTickPerSegment(w: World, ops: seq<Op>, last: Op)
    requires Proper(w) && LosesLessThanOne(w.scale) && InOrder(w.origins.qpc, ops + [last])
    ensures InOrder(w.origins.qpc, ops) && w.origins.qpc <= last.t && forall i :: 0 <= i < |ops| ==> ops[i].t <= last.t
    ensures Inv(w.settings, Start(w.scale, w.settings, w.origins))
    ensures var s := Run(w, Start(w.scale, w.settings, w.origins), ops);
            var lived := Whole(Live(w, ops, last.t));
            var read := Output(w, s, last);
            read.Ok? && w.origins.qpc as real + Exact(lived) <= MAX_U64 as real ==>
              var loss := Exact(lived) - (read.value.performanceCounter as real - w.origins.qpc as real);
              0.0 <= loss < Cuts(lived) as real
  {
    LazySettlementIsEager(w, ops, last);
    IdealRunsForward(w, ops, last.t);
    var lived := Whole(Live(w, ops, last.t));
    if w.origins.qpc as real + Exact(lived) <= MAX_U64 as real {
      SegmentsLoseLittle(w.scale, w.origins.qpc, lived);
    }
  }

  function Pending(lease: Option<U64>): nat {
    if lease.Some? then 1 else 0
  }

  /** Segments begun so far, and those a pending lease will begin. */
  function Budget(e: Ideal): nat {
    Cuts(e.past) + 1 + Pending(e.hold) + Pending(e.startup)
  }

  lemma ExpirySpendsNothing(e: Ideal)
    ensures Budget(Expire(e)) <= Budget(e)
  {
  }

  lemma ActionsSpendTwo(e: Ideal, frequency: U64, a: SpeedAction)
    requires Increasing(e.controls.steps)
    ensures Budget(Perform(e, frequency, a)) <= Budget(e) + 2
  {
    if Refusal(e.controls, a).None? {
      ExpirySpendsNothing(Switch(e, Operate(e.controls, a),
        if a.HoldStart? then Some(SatAdd(e.now, DurationTicks(frequency, a.durationMs))) else None,
        if a.HoldStart? || a.HoldRelease? then e.startup else None));
    }
  }

  lemma {:induction false} IdleSpendsNothing(e: Ideal, t: U64)
    requires e.now <= t
    ensures Budget(Idle(e, t)) <= Budget(e)
    decreases t
  {
    if e.now < t {
      IdleSpendsNothing(e, t - 1);
      var before := Idle(e, t - 1);
      ExpirySpendsNothing(before.(now := before.now + 1, age := before.age + 1));
    }
  }

  /** The segments themselves are few: two to begin with and two more for each action taken. */
  lemma {:induction false} SegmentsAreFew(w: World, ops: seq<Op>, t: U64)
    requires Proper(w) && InOrder(w.origins.qpc, ops) && w.origins.qpc <= t
    requires forall i :: 0 <= i < |ops| ==> ops[i].t <= t
    ensures Cuts(Whole(Live(w, ops, t))) <= Budget(Live(w, ops, t)) <= 2 + 2 * |Actions(ops)|
    decreases |ops|
  {
    if ops == [] {
      var s := Start(w.scale, w.settings, w.origins);
      ExpirySpendsNothing(Ideal(s.controls, None, s.startup, w.origins.qpc, Begin, Effective(s.controls), 0));
      IdleSpendsNothing(Origin(w), t);
    } else {
      var op := ops[|ops| - 1];
      SegmentsAreFew(w, ops[..|ops| - 1], op.t);
      var before := Live(w, ops[..|ops| - 1], op.t);
      if op.Do? {
        ActionsSpendTwo(before, w.origins.frequency, op.action);
        IdleSpendsNothing(Perform(before, w.origins.frequency, op.action), t);
      } else {
        IdleSpendsNothing(before, t);
      }
    }
  }
}
