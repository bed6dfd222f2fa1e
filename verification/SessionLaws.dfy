/** Laws over whole runs of a session: invariance, monotonicity, continuity and independence of polling. */
module SessionLaws {
  import opened Numbers
  import opened Config
  import opened Clock
  import opened Timers
  import opened Controls
  import opened Session

  /** One call on a session, with the real tick it passes. */
  datatype Op = Poll(t: U64) | Do(t: U64, action: SpeedAction)

  datatype World = World(scale: Scaling, origins: Origins, settings: SpeedSettings)

  ghost predicate Proper(w: World) {
    Lawful(w.scale) && WellFormed(w.settings) && 0 < w.origins.frequency
  }

  ghost function Step(w: World, s: SessionState, op: Op): SessionState
    requires Proper(w) && Inv(w.settings, s)
  {
    match op
    case Poll(t) => Observe(w.scale, s, t)
    case Do(t, a) => ApplyAction(w.scale, w.origins.frequency, s, t, a)
  }

  ghost function Output(w: World, s: SessionState, op: Op): Result<TimerSnapshot, SpeedSessionError>
    requires Proper(w)
  {
    var refusal := if op.Do? then Refusal(Settle(w.scale, s, op.t).controls, op.action) else None;
    if refusal.Some? then Err(refusal.value) else Ok(Reading(w.scale, w.origins, s, op.t))
  }

  lemma StepKeepsInv(w: World, s: SessionState, op: Op)
    requires Proper(w) && Inv(w.settings, s)
    ensures Inv(w.settings, Step(w, s, op))
  {
    SettleKeepsInv(w.scale, w.settings, s, op.t);
    if op.Do? {
      ApplyKeepsInv(w.scale, w.origins.frequency, w.settings, s, op.t, op.action);
    }
  }

  /** The state after a run of calls, in whatever order their ticks come. */
  ghost function Run(w: World, s: SessionState, ops: seq<Op>): (r: SessionState)
    requires Proper(w) && Inv(w.settings, s)
    ensures Inv(w.settings, r)
    decreases |ops|
  {
    if ops == [] then s
    else
      var before := Run(w, s, ops[..|ops| - 1]);
      StepKeepsInv(w, before, ops[|ops| - 1]);
      Step(w, before, ops[|ops| - 1])
  }

  /** In every state a session can reach, from any settings and through any calls at any ticks, the
      clock runs at the effective rate of the controls, that rate lies in the configured range, and a
      hold is in force exactly while it has a deadline. */
  lemma EveryReachableStateIsSound(w: World, ops: seq<Op>)
    requires Proper(w)
    ensures Inv(w.settings, Start(w.scale, w.settings, w.origins))
    ensures var s := Run(w, Start(w.scale, w.settings, w.origins), ops);
            && s.line.rate == Effective(s.controls)
            && WithinRange(w.settings, s.line.rate)
            && (s.controls.held.Some? <==> s.hold.Some?)
  {
    StartIsInv(w.scale, w.settings, w.origins);
  }

  // Monotonicity, for ticks in any order

  lemma SettlingIsMonotone(w: World, s: SessionState, t: U64)
    requires Proper(w) && Inv(w.settings, s)
    ensures Virtual(w.scale, s.line) <= Virtual(w.scale, Settle(w.scale, s, t).line)
    ensures Inv(w.settings, Settle(w.scale, s, t))
  {
  }

  /** A call returns the virtual time it leaves the clock at, and never moves it back. */
  lemma StepIsMonotone(w: World, s: SessionState, op: Op)
    requires Proper(w) && Inv(w.settings, s)
    ensures Virtual(w.scale, s.line) <= Virtual(w.scale, Step(w, s, op).line)
    ensures Output(w, s, op).Ok? ==>
              Output(w, s, op).value == Project(w.origins, Virtual(w.scale, Step(w, s, op).line))
  {
    SettlingIsMonotone(w, s, op.t);
    var settled := Settle(w.scale, s, op.t);
    VirtualIsMonotone(w.scale, settled.line, op.t);
    if Output(w, s, op).Ok? && op.Do? {
      var next := Step(w, s, op);
      StepKeepsInv(w, s, op);
      CutDoesNotJump(w.scale, settled.line, op.t, next.line.rate);
    }
  }

  lemma {:induction false} RunIsMonotone(w: World, s: SessionState, ops: seq<Op>)
    requires Proper(w) && Inv(w.settings, s)
    ensures Virtual(w.scale, s.line) <= Virtual(w.scale, Run(w, s, ops).line)
  {
    if ops != [] {
      var init := ops[..|ops| - 1];
      RunIsMonotone(w, s, init);
      StepIsMonotone(w, Run(w, s, init), ops[|ops| - 1]);
    }
  }

  /** Whatever happens between two successful calls, and however their ticks are ordered, the second
      never returns an earlier counter or 64-bit tick than the first. */
  lemma CountersNeverDecrease(w: World, s: SessionState, first: Op, between: seq<Op>, last: Op)
    requires Proper(w) && Inv(w.settings, s)
    ensures Inv(w.settings, Step(w, s, first))
    ensures var a, b := Output(w, s, first), Output(w, Run(w, Step(w, s, first), between), last);
            a.Ok? && b.Ok? ==>
              && a.value.performanceCounter <= b.value.performanceCounter
              && a.value.tickCount64 <= b.value.tickCount64
  {
    StepKeepsInv(w, s, first);
    var s1 := Step(w, s, first);
    var s2 := Run(w, s1, between);
    StepIsMonotone(w, s, first);
    RunIsMonotone(w, s1, between);
    StepIsMonotone(w, s2, last);
    ProjectionIsMonotone(w.origins, Virtual(w.scale, s1.line), Virtual(w.scale, Step(w, s2, last).line));
  }

  /** Every result of every run keeps the two 32-bit timers tied to the 64-bit one. */
  lemma OutputsAgreeAcrossDomains(w: World, s: SessionState, op: Op)
    requires Proper(w) && Output(w, s, op).Ok?
    ensures DomainsAgree(w.origins, Output(w, s, op).value)
  {
    var r := Output(w, s, op).value;
    ThirtyTwoBitTimersFollow(w.origins, r.performanceCounter, r);
  }

  /** No action makes time jump: at the tick it is applied, accepted or refused, and before anything
      else happens, the session still reads what a poll would have read. */
  lemma ActionsDoNotJump(w: World, s: SessionState, t: U64, a: SpeedAction)
    requires Proper(w) && Inv(w.settings, s)
    ensures Virtual(w.scale, At(Step(w, s, Do(t, a)).line, t)) == Virtual(w.scale, Step(w, s, Poll(t)).line)
    ensures Output(w, s, Do(t, a)).Ok? ==> Output(w, s, Do(t, a)) == Output(w, s, Poll(t))
  {
    SettleKeepsInv(w.scale, w.settings, s, t);
    var settled := Settle(w.scale, s, t);
    if Output(w, s, Do(t, a)).Ok? {
      StepKeepsInv(w, s, Do(t, a));
      CutDoesNotJump(w.scale, settled.line, t, Step(w, s, Do(t, a)).line.rate);
    }
  }

  // Independence of polling

  /** No lease ends before the latest tick observed, and none observed is later than `t`. */
  ghost predicate Timely(s: SessionState, t: U64) {
    && s.line.now <= t
    && (s.hold.Some? ==> s.line.now <= s.hold.value)
    && (s.startup.Some? ==> s.line.now <= s.startup.value)
  }

  lemma StartIsTimely(w: World)
    requires Proper(w)
    ensures Timely(Start(w.scale, w.settings, w.origins), w.origins.qpc)
  {
  }

  lemma StepKeepsTimely(w: World, s: SessionState, op: Op)
    requires Proper(w) && Inv(w.settings, s) && Timely(s, op.t)
    ensures Timely(Step(w, s, op), op.t)
  {
  }

  /** Settling early, then again, is settling once: a lease settled at the earlier tick was settled at
      its own deadline, and so would the later tick have done. */
  lemma SettleTwice(w: World, s: SessionState, t: U64, u: U64)
    requires Proper(w) && Inv(w.settings, s) && Timely(s, t) && t <= u
    ensures Settle(w.scale, Settle(w.scale, s, t), u) == Settle(w.scale, s, u)
  {
  }

  /** A poll leaves no trace in anything observed at or after its tick. */
  lemma ObserveTwice(w: World, s: SessionState, t: U64, u: U64)
    requires Proper(w) && Inv(w.settings, s) && Timely(s, t) && t <= u
    ensures Observe(w.scale, Observe(w.scale, s, t), u) == Observe(w.scale, s, u)
    ensures Observe(w.scale, Settle(w.scale, s, t), u) == Observe(w.scale, s, u)
  {
  }

  /** States that cannot be told apart by anything done at or after tick `t`. */
  ghost predicate Agree(w: World, a: SessionState, b: SessionState, t: U64) {
    Observe(w.scale, a, t) == Observe(w.scale, b, t)
  }

  lemma AgreementLasts(w: World, a: SessionState, b: SessionState, t: U64, u: U64)
    requires Proper(w) && Inv(w.settings, a) && Inv(w.settings, b)
    requires Timely(a, t) && Timely(b, t) && t <= u && Agree(w, a, b, t)
    ensures Agree(w, a, b, u)
  {
    ObserveTwice(w, a, t, u);
    ObserveTwice(w, b, t, u);
  }

  /** The same call on two such states returns the same, sets the same rate, and they still agree. */
  lemma StepAgrees(w: World, a: SessionState, b: SessionState, op: Op)
    requires Proper(w) && Inv(w.settings, a) && Inv(w.settings, b)
    requires Timely(a, op.t) && Timely(b, op.t) && Agree(w, a, b, op.t)
    ensures Output(w, a, op) == Output(w, b, op)
    ensures Agree(w, Step(w, a, op), Step(w, b, op), op.t)
    ensures Step(w, a, op).line.rate == Step(w, b, op).line.rate
  {
  }

  ghost predicate InOrder(start: U64, ops: seq<Op>) {
    && (forall i :: 0 <= i < |ops| ==> start <= ops[i].t)
    && (forall i, j :: 0 <= i < j < |ops| ==> ops[i].t <= ops[j].t)
  }

  /** The calls that are not polls. */
  function Actions(ops: seq<Op>): seq<Op> {
    if ops == [] then []
    else
      var init := Actions(ops[..|ops| - 1]);
      if ops[|ops| - 1].Poll? then init else init + [ops[|ops| - 1]]
  }

  lemma {:induction false} RunsAgree(w: World, s: SessionState, ops: seq<Op>, u: U64)
    requires Proper(w) && Inv(w.settings, s) && Timely(s, s.line.now)
    requires InOrder(s.line.now, ops) && s.line.now <= u && forall i :: 0 <= i < |ops| ==> ops[i].t <= u
    ensures Timely(Run(w, s, ops), u) && Timely(Run(w, s, Actions(ops)), u)
    ensures Agree(w, Run(w, s, ops), Run(w, s, Actions(ops)), u)
    decreases |ops|
  {
    if ops != [] {
      var init, op := ops[..|ops| - 1], ops[|ops| - 1];
      RunsAgree(w, s, init, op.t);
      var a, b := Run(w, s, init), Run(w, s, Actions(init));
      StepAgrees(w, a, b, op);
      StepKeepsTimely(w, a, op);
      StepKeepsTimely(w, b, op);
      StepKeepsInv(w, a, op);
      StepKeepsInv(w, b, op);
      if op.Poll? {
        AgreementLasts(w, a, b, op.t, u);
        ObserveTwice(w, a, op.t, u);
      } else {
        var acts := Actions(init);
        assert Actions(ops) == acts + [op];
        assert (acts + [op])[..|acts|] == acts;
        AgreementLasts(w, Step(w, a, op), Step(w, b, op), op.t, u);
      }
    }
  }

  /** Polling independence. Over any run of calls at nondecreasing ticks, what a call returns, the rate
      in force after it and everything later depend only on the actions before it: polls may be
      inserted or removed at will. */
  lemma PollingIndependence(w: World, s: SessionState, ops: seq<Op>, others: seq<Op>, last: Op)
    requires Proper(w) && Inv(w.settings, s) && Timely(s, s.line.now)
    requires InOrder(s.line.now, ops + [last]) && InOrder(s.line.now, others + [last])
    requires Actions(ops) == Actions(others)
    ensures Output(w, Run(w, s, ops), last) == Output(w, Run(w, s, others), last)
    ensures Step(w, Run(w, s, ops), last).line.rate == Step(w, Run(w, s, others), last).line.rate
    ensures Agree(w, Step(w, Run(w, s, ops), last), Step(w, Run(w, s, others), last), last.t)
  {
    forall xs: seq<Op> | xs in [ops, others]
      ensures InOrder(s.line.now, xs) && s.line.now <= last.t
      ensures forall i :: 0 <= i < |xs| ==> xs[i].t <= last.t
    {
      var all := xs + [last];
      assert all[|xs|] == last;
      assert forall i :: 0 <= i < |xs| ==> all[i] == xs[i];
    }
    RunsAgree(w, s, ops, last.t);
    RunsAgree(w, s, others, last.t);
    StepAgrees(w, Run(w, s, ops), Run(w, s, others), last);
  }

  /** A refused action is a poll: nothing observed at or after its tick can tell them apart. */
  lemma RefusedActionIsAPoll(w: World, s: SessionState, t: U64, a: SpeedAction, u: U64)
    requires Proper(w) && Inv(w.settings, s) && Timely(s, t) && t <= u
    requires Output(w, s, Do(t, a)).Err?
    ensures Agree(w, Step(w, s, Do(t, a)), Step(w, s, Poll(t)), u)
  {
  }
}
