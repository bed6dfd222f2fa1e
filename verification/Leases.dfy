/** How long the two leases of a session last, and what each action does to the rate, told in milliseconds, ticks and
    configured steps. */
module Leases {
  import opened Numbers
  import opened Config
  import opened Clock
  import opened Timers
  import opened Controls
  import opened Session
  import opened SessionLaws

  /** A lease of `ms` milliseconds that began at tick `from` still runs at tick `at`: the next tick does not complete
      the duration. It runs for one tick at least, and never at the last tick there is. */
  predicate Lasts(frequency: nat, ms: nat, from: nat, at: nat) {
    at < MAX_U64 && (at <= from || (at - from) * 1000 + 1000 <= ms * frequency)
  }

  lemma DeadlinesAreExact(frequency: U64, ms: U32, from: U64, at: U64)
    requires from <= at
    ensures at < SatAdd(from, DurationTicks(frequency, ms)) <==> Lasts(frequency, ms, from, at)
  {
    var total := ms * frequency;
    assert total / 1000 * 1000 <= total < total / 1000 * 1000 + 1000;
  }

  lemma {:induction false} PollsAreNoActions(polls: seq<Op>)
    requires forall i :: 0 <= i < |polls| ==> polls[i].Poll?
    ensures Actions(polls) == []
  {
    if polls != [] {
      PollsAreNoActions(polls[..|polls| - 1]);
    }
  }

  /** However a session is polled, the rate at a tick is the one a single poll finds. */
  lemma PollsDoNotMatter(w: World, s: SessionState, polls: seq<Op>, u: U64)
    requires Proper(w) && Inv(w.settings, s) && Timely(s, s.line.now)
    requires (forall i :: 0 <= i < |polls| ==> polls[i].Poll?) && InOrder(s.line.now, polls + [Poll(u)])
    ensures Step(w, Run(w, s, polls), Poll(u)).line.rate == Step(w, s, Poll(u)).line.rate
  {
    PollsAreNoActions(polls);
    var all := polls + [Poll(u)];
    assert all[|polls|] == Poll(u);
    assert [] + [Poll(u)] == [Poll(u)];
    PollingIndependence(w, s, polls, [], Poll(u));
  }

  // The startup lease

  predicate HasStartupLease(s: SpeedSettings)
    requires WellFormed(s)
  {
    s.enabled && s.initialMultiplier.value != 1.0 && 0 < s.startupDurationMs
  }

  /** The startup lease of a session still runs at a tick. */
  ghost predicate StartupLasts(w: World, at: U64)
    requires Proper(w)
  {
    Lasts(w.origins.frequency, w.settings.startupDurationMs, w.origins.qpc, at)
  }

  /** Until something is done to it, a session that is enabled runs at its initial rate, for the startup duration if
      there is one, and then in real time; one that is not enabled runs in real time. */
  lemma StartupLastsExactly(w: World, polls: seq<Op>, u: U64)
    requires Proper(w)
    requires (forall i :: 0 <= i < |polls| ==> polls[i].Poll?) && InOrder(w.origins.qpc, polls + [Poll(u)])
    ensures Inv(w.settings, Start(w.scale, w.settings, w.origins))
    ensures Step(w, Run(w, Start(w.scale, w.settings, w.origins), polls), Poll(u)).line.rate
            == if w.settings.enabled && (w.settings.startupDurationMs == 0 || StartupLasts(w, u))
               then w.settings.initialMultiplier.value else 1.0
  {
    var s := Start(w.scale, w.settings, w.origins);
    StartIsInv(w.scale, w.settings, w.origins);
    StartIsTimely(w);
    PollsDoNotMatter(w, s, polls, u);
    var all := polls + [Poll(u)];
    assert all[|polls|] == Poll(u);
    DeadlinesAreExact(w.origins.frequency, w.settings.startupDurationMs, w.origins.qpc, u);
  }

  /** A startup lease is never moved: it is the one of the start, or over; and there is one at the start exactly if
      the settings ask for it. */
  lemma {:induction false} StartupIsKeptOrOver(w: World, ops: seq<Op>)
    requires Proper(w)
    ensures Inv(w.settings, Start(w.scale, w.settings, w.origins))
    ensures var s := Start(w.scale, w.settings, w.origins);
            Run(w, s, ops).startup in {None, s.startup} && (s.startup.Some? <==> HasStartupLease(w.settings))
  {
    StartIsInv(w.scale, w.settings, w.origins);
    if ops != [] {
      StartupIsKeptOrOver(w, ops[..|ops| - 1]);
    }
  }

  // Holds

  /** The rate beneath a hold. */
  function Beneath(c: Controls): real {
    if c.bypassed then 1.0 else c.selected
  }

  lemma HoldEndsOnItsTick(w: World, s: SessionState, t: U64, m: F64, ms: U32, u: U64)
    requires Proper(w) && Inv(w.settings, s) && Timely(s, t) && t <= u
    requires Output(w, s, Do(t, HoldStart(m, ms))).Ok?
    ensures m.Finite? && Inv(w.settings, Step(w, s, Do(t, HoldStart(m, ms))))
    ensures Step(w, Step(w, s, Do(t, HoldStart(m, ms))), Poll(u)).line.rate
            == if s.startup.Some? && t < s.startup.value <= u then 1.0
               else if u < SatAdd(t, DurationTicks(w.origins.frequency, ms)) then m.value
               else Beneath(Settle(w.scale, s, t).controls)
  {
    StepKeepsInv(w, s, Do(t, HoldStart(m, ms)));
    SettleKeepsInv(w.scale, w.settings, s, t);
  }

  /** A hold lasts exactly as long as asked for. After any run in time order, an accepted hold of `ms` milliseconds at
      `t`, and any polls: the rate at `u` is the one held for as long as the hold lasts, and then again the one
      beneath it; but a startup lease that was still pending ends the hold as well, in real time. */
  lemma {:induction false} HoldLastsExactly(w: World, ops: seq<Op>, t: U64, m: F64, ms: U32, polls: seq<Op>, u: U64)
    requires Proper(w) && InOrder(w.origins.qpc, ops) && w.origins.qpc <= t
    requires forall i :: 0 <= i < |ops| ==> ops[i].t <= t
    requires (forall i :: 0 <= i < |polls| ==> polls[i].Poll?) && InOrder(t, polls + [Poll(u)])
    requires Inv(w.settings, Start(w.scale, w.settings, w.origins))
    requires Output(w, Run(w, Start(w.scale, w.settings, w.origins), ops), Do(t, HoldStart(m, ms))).Ok?
    ensures var s := Run(w, Start(w.scale, w.settings, w.origins), ops);
            var held := Step(w, s, Do(t, HoldStart(m, ms)));
            && m.Finite? && Inv(w.settings, held)
            && Step(w, Run(w, held, polls), Poll(u)).line.rate
               == if s.startup.Some? && StartupLasts(w, t) && !StartupLasts(w, u) then 1.0
                  else if Lasts(w.origins.frequency, ms, t, u) then m.value
                  else Beneath(Settle(w.scale, s, t).controls)
  {
    var start := Start(w.scale, w.settings, w.origins);
    var s := Run(w, start, ops);
    var held := Step(w, s, Do(t, HoldStart(m, ms)));
    var all := polls + [Poll(u)];
    assert all[|polls|] == Poll(u);
    RunsAreTimely(w, ops, t);
    StartupIsKeptOrOver(w, ops);
    DeadlinesAreExact(w.origins.frequency, w.settings.startupDurationMs, w.origins.qpc, t);
    DeadlinesAreExact(w.origins.frequency, w.settings.startupDurationMs, w.origins.qpc, u);
    HoldEndsOnItsTick(w, s, t, m, ms, u);
    StepKeepsTimely(w, s, Do(t, HoldStart(m, ms)));
    PollsDoNotMatter(w, held, polls, u);
    DeadlinesAreExact(w.origins.frequency, ms, t, u);
  }

  lemma {:induction false} RunsAreTimely(w: World, ops: seq<Op>, t: U64)
    requires Proper(w) && InOrder(w.origins.qpc, ops) && w.origins.qpc <= t
    requires forall i :: 0 <= i < |ops| ==> ops[i].t <= t
    ensures Inv(w.settings, Start(w.scale, w.settings, w.origins))
    ensures Timely(Run(w, Start(w.scale, w.settings, w.origins), ops), t)
  {
    StartIsInv(w.scale, w.settings, w.origins);
    StartIsTimely(w);
    RunsAgree(w, Start(w.scale, w.settings, w.origins), ops, t);
  }

  // Actions

  /** What an accepted action is for: the rate it sets, told by the rate beneath any hold and the configured steps. */
  ghost predicate MeansWhatItSays(c: Controls, a: SpeedAction, rate: real) {
    var beneath := Beneath(c);
    match a
    case IncreaseSpeed => beneath <= rate && NextFaster(c.steps, beneath, if beneath < rate then Some(rate) else None)
    case DecreaseSpeed => rate <= beneath && NextSlower(c.steps, beneath, if rate < beneath then Some(rate) else None)
    case ToggleSpeed => rate == if c.bypassed && c.previousNonunity.Some? then c.previousNonunity.value else 1.0
    case ResetSpeed => rate == 1.0
    case FocusLost => rate == 1.0
    case SelectPreset(preset) => preset == Finite(rate)
    case HoldStart(held, _) => held == Finite(rate)
    case HoldRelease => rate == beneath
  }

  lemma OperatingMeansIt(s: SpeedSettings, c: Controls, a: SpeedAction)
    requires WellFormed(s) && Consistent(s, c) && Refusal(c, a).None?
    ensures MeansWhatItSays(c, a, Effective(Operate(c, a)))
  {
    assert Effective(Released(c)) == Beneath(c);
  }

  /** Every accepted action sets the rate it is for, and keeps a startup lease only if it is about a hold. */
  lemma ActionsMeanWhatTheySay(w: World, s: SessionState, t: U64, a: SpeedAction)
    requires Proper(w) && Inv(w.settings, s) && Output(w, s, Do(t, a)).Ok?
    ensures var settled, after := Settle(w.scale, s, t), Step(w, s, Do(t, a));
            && MeansWhatItSays(settled.controls, a, after.line.rate)
            && after.startup == (if a.HoldStart? || a.HoldRelease? then settled.startup else None)
            && (after.hold.Some? <==> a.HoldStart?)
  {
    SettleKeepsInv(w.scale, w.settings, s, t);
    OperatingMeansIt(w.settings, Settle(w.scale, s, t).controls, a);
  }

  /** What a preset other than 1 sets is what a toggle brings back after a reset. */
  lemma ResetThenToggle(c: Controls, rate: real)
    requires rate != 1.0
    ensures Effective(Toggled(Unity(Activated(c, rate)))) == rate
  {
  }
}
