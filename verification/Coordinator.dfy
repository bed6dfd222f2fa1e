/** The coordinator: keyboard input and one speed session behind a single boundary. */
module Coordinator {
  import opened Numbers
  import opened Config
  import opened Clock
  import opened Timers
  import opened Controls
  import opened Session
  import opened SessionLaws
  import opened Schedule
  import opened Hotkeys
  import opened InputPump
  import opened InputTrace

  datatype CoordinatorError = HotkeysInvalid(hotkeys: HotkeyError) | SessionInvalid(session: SpeedSessionError)

  datatype InputSampleOutcome = InputSampleOutcome(timers: TimerSnapshot, actions: seq<SpeedAction>)

  /** A batch of actions, all at one real tick. */
  ghost function Batch(w: World, s: SessionState, t: U64, actions: seq<SpeedAction>): (r: SessionState)
    requires Proper(w) && Inv(w.settings, s)
    ensures Inv(w.settings, r)
  {
    if actions == [] then s
    else
      var before := Batch(w, s, t, actions[..|actions| - 1]);
      StepKeepsInv(w, before, Do(t, actions[|actions| - 1]));
      Step(w, before, Do(t, actions[|actions| - 1]))
  }

  /** Actions accepted by any controls of a session with these settings. */
  ghost predicate Acceptable(s: SpeedSettings, actions: seq<SpeedAction>)
    requires WellFormed(s)
  {
    forall c, a :: Consistent(s, c) && a in actions ==> Refusal(c, a).None?
  }

  /** Everything the edge machine can emit is accepted by controls with the steps it was compiled for. */
  lemma EmittedActionsAreAcceptable(bindings: seq<Binding>, s: SpeedSettings, keys: seq<Key>, e: Edge,
      snapshot: InputSnapshot)
    requires WellFormed(s) && Compiled(bindings, s)
    ensures Acceptable(s, EdgeStep(bindings, keys, e, snapshot).1)
  {
    forall c, a | Consistent(s, c) && a in EdgeStep(bindings, keys, e, snapshot).1
      ensures Refusal(c, a).None?
    {
      if a != HoldRelease && a != FocusLost {
        var down := Watched(snapshot, keys);
        var m := ModifiersOf(down);
        FiredComesFromAKey(bindings, Ascending(down - e.down), m, a);
        var k :| k in Ascending(down - e.down) && Lookup(bindings, KeyChord(k, m)).Some?
                 && a == ActionOf(Lookup(bindings, KeyChord(k, m)).value);
        CompiledActionsAreAccepted(bindings, s, c, KeyChord(k, m));
      }
    }
  }

  lemma AcceptableIsAccepted(w: World, s: SessionState, t: U64, a: SpeedAction, actions: seq<SpeedAction>)
    requires Proper(w) && Inv(w.settings, s) && Acceptable(w.settings, actions) && a in actions
    ensures Output(w, s, Do(t, a)).Ok?
  {
  }

  /** Reading again at the same tick reads the same, whichever order ticks come in. */
  lemma RereadingIsIdle(w: World, s: SessionState, t: U64)
    requires Proper(w)
    ensures Observe(w.scale, Observe(w.scale, s, t), t) == Observe(w.scale, s, t)
  {
  }

  /** An accepted action leaves the reading at its own tick as it was. */
  lemma ReadingSurvivesAnAction(w: World, s: SessionState, t: U64, a: SpeedAction)
    requires Proper(w) && Inv(w.settings, s) && Output(w, s, Do(t, a)).Ok?
    ensures Reading(w.scale, w.origins, Step(w, s, Do(t, a)), t) == Reading(w.scale, w.origins, s, t)
  {
    ActionsDoNotJump(w, s, t, a);
    NothingDue(w, s, t);
    StepKeepsInv(w, s, Do(t, a));
    SettleKeepsInv(w.scale, w.settings, s, t);
    var next := Step(w, s, Do(t, a));
    var settled := Settle(w.scale, s, t);
    CutDoesNotJump(w.scale, settled.line, t, next.line.rate);
    assert next.line == Cut(w.scale, settled.line, t, next.line.rate);
    assert At(next.line, t) == next.line;
    if next.hold == Some(t) {
      EffectiveIsValid(w.settings, next.controls);
      OperationsKeepConsistency(w.settings, next.controls);
      EffectiveIsValid(w.settings, Released(next.controls));
      CutDoesNotJump(w.scale, next.line, t, Effective(Released(next.controls)));
    }
  }

  /** A batch of acceptable actions changes the rate but not the time read at its tick. */
  lemma {:induction false} BatchesDoNotJump(w: World, s: SessionState, t: U64, actions: seq<SpeedAction>)
    requires Proper(w) && Inv(w.settings, s) && Acceptable(w.settings, actions)
    ensures Reading(w.scale, w.origins, Batch(w, s, t, actions), t) == Reading(w.scale, w.origins, s, t)
  {
    if actions != [] {
      var init, a := actions[..|actions| - 1], actions[|actions| - 1];
      BatchesDoNotJump(w, s, t, init);
      AcceptableIsAccepted(w, Batch(w, s, t, init), t, a, actions);
      ReadingSurvivesAnAction(w, Batch(w, s, t, init), t, a);
    }
  }

  lemma FocusLossRestoresRealTime(w: World, s: SessionState, t: U64)
    requires Proper(w) && Inv(w.settings, s)
    ensures Observe(w.scale, Batch(w, s, t, [FocusLost]), t).line.rate == 1.0
  {
  }

  /** What an input sample does, on values: it observes the session, applies what the edge machine emits and
      observes again. */
  lemma InputMovesNoTime(w: World, s: SessionState, t: U64, bindings: seq<Binding>, keys: seq<Key>, e: Edge,
      snapshot: InputSnapshot)
    requires Proper(w) && Inv(w.settings, s) && Compiled(bindings, w.settings)
    ensures var seen, actions := Observe(w.scale, s, t), EdgeStep(bindings, keys, e, snapshot).1;
            && Inv(w.settings, seen) && Acceptable(w.settings, actions)
            && Reading(w.scale, w.origins, Batch(w, seen, t, actions), t) == Reading(w.scale, w.origins, s, t)
            && (FocusLost in actions ==>
                  actions == [FocusLost] && Observe(w.scale, Batch(w, seen, t, actions), t).line.rate == 1.0)
  {
    var seen, actions := Observe(w.scale, s, t), EdgeStep(bindings, keys, e, snapshot).1;
    StepKeepsInv(w, s, Poll(t));
    EmittedActionsAreAcceptable(bindings, w.settings, keys, e, snapshot);
    BatchesDoNotJump(w, seen, t, actions);
    RereadingIsIdle(w, s, t);
    if FocusLost in actions {
      FocusLossIsAlone(bindings, keys, e, snapshot);
      FocusLossRestoresRealTime(w, seen, t);
    }
  }

  class SpeedCoordinator {
    const session: SpeedSession
    const input: FocusedInputPump
    var focused: bool
    var lastAction: Option<SpeedAction>

    ghost predicate Valid()
      reads this, session, session.controls, session.timers, session.timers.clock, input, input.dispatcher
    {
      session.Valid() && input.Valid() && Compiled(input.dispatcher.bindings, session.settings)
    }

    ghost function TheWorld(): World
      reads this, session, session.timers, session.timers.clock
    {
      World(session.timers.clock.scale, session.timers.origins, session.settings)
    }

    static method Create(scale: Scaling, settings: SpeedSettings, hotkeys: SpeedHotkeyConfig, o: Origins)
      returns (r: Result<SpeedCoordinator, CoordinatorError>)
      requires Lawful(scale)
      ensures r.Ok? <==> Compilable(hotkeys, settings) && WellFormed(settings) && 0 < o.frequency
      ensures r.Ok? ==>
                && r.value.Valid() && r.value.TheWorld() == World(scale, o, settings)
                && r.value.input.dispatcher.bindings == AllWanted(hotkeys)
                && r.value.session.State() == Start(scale, settings, o)
                && r.value.input.State() == Edge(false, {}, None)
                && !r.value.focused && r.value.lastAction == None
    {
      var table := Compile(hotkeys, settings);
      if table.Err? {
        return Err(HotkeysInvalid(table.error));
      }
      var input := new FocusedInputPump(table.value);
      var session := SpeedSession.Create(scale, settings, o);
      if session.Err? {
        return Err(SessionInvalid(session.error));
      }
      var c := new SpeedCoordinator(session.value, input);
      return Ok(c);
    }

    constructor (session: SpeedSession, input: FocusedInputPump)
      ensures this.session == session && this.input == input && !focused && lastAction == None
    {
      this.session, this.input := session, input;
      focused, lastAction := false, None;
    }

    method Apply(realQpc: U64, action: SpeedAction) returns (r: Result<TimerSnapshot, SpeedSessionError>)
      requires Valid()
      modifies this, session, session.controls, session.timers.clock
      ensures Valid() && focused == old(focused) && input.State() == old(input.State())
      ensures session.State() == Step(TheWorld(), old(session.State()), Do(realQpc, action))
      ensures r == Output(TheWorld(), old(session.State()), Do(realQpc, action))
      ensures lastAction == if r.Ok? then Some(action) else old(lastAction)
    {
      r := session.Apply(realQpc, action);
      if r.Ok? {
        lastAction := Some(action);
      }
    }

    method ApplyAll(realQpc: U64, actions: seq<SpeedAction>)
      requires Valid() && Acceptable(session.settings, actions)
      modifies this, session, session.controls, session.timers.clock
      ensures Valid() && focused == old(focused) && input.State() == old(input.State())
      ensures session.State() == Batch(TheWorld(), old(session.State()), realQpc, actions)
      ensures lastAction == if actions == [] then old(lastAction) else Some(actions[|actions| - 1])
    {
      ghost var w := TheWorld();
      for i := 0 to |actions|
        invariant Valid() && TheWorld() == w && focused == old(focused) && input.State() == old(input.State())
        invariant session.State() == Batch(w, old(session.State()), realQpc, actions[..i])
        invariant lastAction == if i == 0 then old(lastAction) else Some(actions[i - 1])
      {
        assert actions[..i + 1][..i] == actions[..i];
        AcceptableIsAccepted(w, session.State(), realQpc, actions[i], actions);
        var applied := Apply(realQpc, actions[i]);
        assert applied.Ok?;
      }
      assert actions[..|actions|] == actions;
    }

    /** The first half of an input sample: leases that are due expire, and the keys are looked at. */
    method ReadInput(realQpc: U64, snapshot: InputSnapshot) returns (actions: seq<SpeedAction>)
      requires Valid()
      modifies this, session, session.controls, session.timers.clock, input, input.dispatcher
      ensures Valid() && TheWorld() == old(TheWorld()) && focused == snapshot.focused && lastAction == old(lastAction)
      ensures session.State() == Observe(TheWorld().scale, old(session.State()), realQpc)
      ensures (input.State(), actions) == EdgeStep(input.dispatcher.bindings, input.keys, old(input.State()), snapshot)
    {
      var _ := session.Sample(realQpc);
      focused := snapshot.focused;
      actions := input.Sample(snapshot);
    }

    /** The second half: the actions are applied, and the timers read once more. */
    method ApplyAndRead(realQpc: U64, actions: seq<SpeedAction>) returns (timers: TimerSnapshot)
      requires Valid() && Acceptable(session.settings, actions)
      modifies this, session, session.controls, session.timers.clock
      ensures Valid() && TheWorld() == old(TheWorld()) && focused == old(focused) && input.State() == old(input.State())
      ensures var w, after := TheWorld(), Batch(TheWorld(), old(session.State()), realQpc, actions);
              session.State() == Observe(w.scale, after, realQpc)
                  && timers == Reading(w.scale, w.origins, after, realQpc)
      ensures lastAction == if actions == [] then old(lastAction) else Some(actions[|actions| - 1])
    {
      ApplyAll(realQpc, actions);
      timers := session.Sample(realQpc);
    }

    /** Every action the input emits is accepted, so this never fails and the code's reset after an
        input error is not needed. The actions change the rate but not the time it is read at, and a
        focus loss always leaves the clock in real time. */
    method InputSampleWithActions(realQpc: U64, snapshot: InputSnapshot) returns (r: InputSampleOutcome)
      requires Valid()
      modifies this, session, session.controls, session.timers.clock, input, input.dispatcher
      ensures Valid() && focused == snapshot.focused
      ensures (input.State(), r.actions)
              == EdgeStep(input.dispatcher.bindings, input.keys, old(input.State()), snapshot)
      ensures r.timers == Reading(session.timers.clock.scale, session.timers.origins, old(session.State()), realQpc)
      ensures var w := TheWorld();
              Inv(w.settings, Observe(w.scale, old(session.State()), realQpc))
              && session.State()
                 == Observe(w.scale, Batch(w, Observe(w.scale, old(session.State()), realQpc), realQpc, r.actions),
                     realQpc)
      ensures lastAction == if r.actions == [] then old(lastAction) else Some(r.actions[|r.actions| - 1])
      ensures FocusLost in r.actions ==> r.actions == [FocusLost] && session.State().line.rate == 1.0
    {
      ghost var w, before, edge := TheWorld(), session.State(), input.State();
      var actions := ReadInput(realQpc, snapshot);
      InputMovesNoTime(w, before, realQpc, input.dispatcher.bindings, input.keys, edge, snapshot);
      var timers := ApplyAndRead(realQpc, actions);
      return InputSampleOutcome(timers, actions);
    }
  }

  lemma FocusLossIsAlone(bindings: seq<Binding>, keys: seq<Key>, e: Edge, snapshot: InputSnapshot)
    requires FocusLost in EdgeStep(bindings, keys, e, snapshot).1
    ensures EdgeStep(bindings, keys, e, snapshot).1 == [FocusLost]
  {
    if snapshot.focused && e.focused {
      var down := Watched(snapshot, keys);
      FiredComesFromAKey(bindings, Ascending(down - e.down), ModifiersOf(down), FocusLost);
    }
  }
}
