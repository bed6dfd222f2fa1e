/** The lifecycle byte, the shutdown flag and the hook lock under any number of threads. A run is any
    interleaving of their atomic steps, from the one attachment on. */
module ShutdownRace {
  import opened Numbers

  datatype LifecycleState = Detached | Attached | Bootstrapping | Running | Stopping | Stopped | Failed

  /** Who calls `begin_shutdown`. */
  datatype Caller = ByShutdown | ByBootstrap

  datatype Pc =
    // shutdown
    | Requesting
    | RestoreLock
    | Restoring
    // begin_shutdown, with the state last seen and the failed tries so far
    | BeginRequest(caller: Caller)
    | BeginLoad(caller: Caller, tries: nat)
    | BeginSwap(caller: Caller, seen: LifecycleState, tries: nat)
    // mark_stopped
    | StopLoad(caller: Caller)
    | StopSwap(caller: Caller)
    // enabling and disabling the hooks
    | EnableLock
    | EnableFlag
    | EnableState
    | EnableInstall
    | DisableLock
    | DisableRestore
    // the loader's notification
    | LoaderRequest
    // mark_failed
    | FailLoad(tries: nat)
    | FailSwap(seen: LifecycleState, tries: nat)
    // bootstrap
    | BootFlag
    | BootBegin
    | BootWork
    | BootFlagAgain
    | BootRun
    | Finished
    | ShutDown   // shutdown() has returned successfully

  /** What the threads share. `hooked` says that the hook record is not empty; the last three fields only
      remember the past. */
  datatype Shared = Shared(
    lifecycle: LifecycleState, requested: bool, hooked: bool, lock: Option<nat>, hasRun: bool, sealed: bool,
        winners: nat)

  datatype State = State(shared: Shared, threads: seq<Pc>)

  function Rank(l: LifecycleState): nat {
    match l
    case Detached => 0
    case Attached => 1
    case Bootstrapping => 2
    case Running => 3
    case Failed => 4
    case Stopping => 5
    case Stopped => 6
  }

  predicate Down(l: LifecycleState) {
    l.Stopping? || l.Stopped?
  }

  /** What a thread starts with; only the thread that attaching creates runs the bootstrap. */
  predicate IsEntry(pc: Pc) {
    pc.Requesting? || pc.EnableLock? || pc.DisableLock? || pc.LoaderRequest? || pc == FailLoad(0)
  }

  function Start(others: seq<Pc>): State {
    State(Shared(Attached, false, false, None, false, false, 0), [BootFlag] + others)
  }

  /** Only the lock ever makes a thread wait. */
  predicate CanMove(s: Shared, pc: Pc) {
    !pc.Finished? && !pc.ShutDown? && (pc.RestoreLock? || pc.EnableLock? || pc.DisableLock? ==> s.lock.None?)
  }

  predicate Enabled(s: State, i: nat) {
    i < |s.threads| && CanMove(s.shared, s.threads[i])
  }

  /** After `mark_stopped`: a shutdown passes its result on, the bootstrap reports an error in any case, which
      marks the lifecycle as failed. */
  function AfterStop(caller: Caller, stopped: bool): Pc {
    if caller.ByBootstrap? then FailLoad(0) else if stopped then ShutDown else Finished
  }

  /** After `begin_shutdown`: a shutdown that lost is done, the bootstrap goes on either way. */
  function AfterBegin(caller: Caller, won: bool): Pc {
    if caller.ByShutdown? && !won then ShutDown else StopLoad(caller)
  }

  /** The next step of thread `i`. `ok` decides what the model leaves open: whether hooks can be installed,
      whether they can be removed, and whether the work of the bootstrap succeeds. */
  function Move(s: Shared, i: nat, pc: Pc, ok: bool): (r: (Pc, Shared))
    requires CanMove(s, pc)
  {
    match pc
    case Requesting => (RestoreLock, s.(requested := true))
    case RestoreLock => (Restoring, s.(lock := Some(i)))
    case Restoring =>
      if s.hooked && !ok then (Finished, s.(lock := None))
      else (BeginRequest(ByShutdown), s.(hooked := false, lock := None, sealed := true))
    case BeginRequest(caller) => (BeginLoad(caller, 0), s.(requested := true))
    case BeginLoad(caller, tries) =>
      (if Down(s.lifecycle) then AfterBegin(caller, false) else BeginSwap(caller, s.lifecycle, tries), s)
    case BeginSwap(caller, seen, tries) =>
      if s.lifecycle != seen then (BeginLoad(caller, tries + 1), s)
      else if seen.Detached? then (AfterBegin(caller, false), s.(lifecycle := Stopped))
      else (AfterBegin(caller, true), s.(lifecycle := Stopping, winners := s.winners + 1))
    case StopLoad(caller) =>
      (if s.lifecycle.Stopping? then StopSwap(caller) else AfterStop(caller, s.lifecycle.Stopped?), s)
    case StopSwap(caller) =>
      if s.lifecycle.Stopping? then (AfterStop(caller, true), s.(lifecycle := Stopped))
          else (AfterStop(caller, false), s)
    case EnableLock => (EnableFlag, s.(lock := Some(i)))
    case EnableFlag => if s.requested then (Finished, s.(lock := None)) else (EnableState, s)
    case EnableState => if s.lifecycle.Running? then (EnableInstall, s) else (Finished, s.(lock := None))
    case EnableInstall => (Finished, s.(hooked := s.hooked || ok, lock := None))
    case DisableLock => (DisableRestore, s.(lock := Some(i)))
    case DisableRestore => (Finished, s.(hooked := s.hooked && !ok, lock := None))
    case LoaderRequest => (Finished, s.(requested := true))
    case FailLoad(tries) => (if Down(s.lifecycle) then Finished else FailSwap(s.lifecycle, tries), s)
    case FailSwap(seen, tries) =>
      if s.lifecycle == seen then (Finished, s.(lifecycle := Failed)) else (FailLoad(tries + 1), s)
    case BootFlag => (if s.requested then BeginRequest(ByBootstrap) else BootBegin, s)
    case BootBegin =>
      if s.lifecycle.Attached? then (BootWork, s.(lifecycle := Bootstrapping)) else (FailLoad(0), s)
    case BootWork => (if ok then BootFlagAgain else FailLoad(0), s)
    case BootFlagAgain => (if s.requested then BeginRequest(ByBootstrap) else BootRun, s)
    // A bootstrap that succeeds may go on to arm the timers.
    case BootRun =>
      if s.lifecycle.Bootstrapping? then (EnableLock, s.(lifecycle := Running, hasRun := true)) else (FailLoad(0), s)
  }

  function Step(s: State, i: nat, ok: bool): State
    requires Enabled(s, i)
  {
    var (pc, shared) := Move(s.shared, i, s.threads[i], ok);
    State(shared, s.threads[i := pc])
  }

  // The invariant

  predicate HoldsTheLock(pc: Pc) {
    pc.Restoring? || pc.EnableFlag? || pc.EnableState? || pc.EnableInstall? || pc.DisableRestore?
  }

  predicate IsBootstrap(pc: Pc) {
    || pc.BootFlag? || pc.BootBegin? || pc.BootWork? || pc.BootFlagAgain? || pc.BootRun?
    || ((pc.BeginRequest? || pc.BeginLoad? || pc.BeginSwap? || pc.StopLoad? || pc.StopSwap?) && pc.caller.ByBootstrap?)
  }

  predicate EndsAShutdown(pc: Pc) {
    (pc.BeginRequest? || pc.BeginLoad? || pc.BeginSwap? || pc.StopLoad? || pc.StopSwap?) && pc.caller.ByShutdown?
  }

  /** A thread and the hooks. */
  predicate HooksAreGuarded(s: Shared, i: nat, pc: Pc) {
    && (HoldsTheLock(pc) ==> s.lock == Some(i))
    && (pc.RestoreLock? || pc.Restoring? ==> s.requested)
    && (pc.EnableState? || pc.EnableInstall? ==> !s.sealed)
    && (pc.EnableInstall? ==> s.hasRun)
    && (EndsAShutdown(pc) || pc.ShutDown? ==> s.sealed)
    && (IsBootstrap(pc) ==> i == 0 && !s.hasRun)
  }

  /** A thread and the lifecycle: every failed try is paid for by a change that raised the rank. */
  predicate TriesArePaidFor(s: Shared, pc: Pc) {
    && (pc.BeginLoad? || pc.FailLoad? ==> pc.tries <= Rank(s.lifecycle))
    && (pc.BeginSwap? || pc.FailSwap? ==>
          && !Down(pc.seen) && pc.tries <= Rank(pc.seen)
          && (pc.seen == s.lifecycle || Rank(pc.seen) < Rank(s.lifecycle)))
    && (pc.StopLoad? || pc.StopSwap? || pc.ShutDown? ==> Down(s.lifecycle))
  }

  predicate ThreadIsSound(s: Shared, i: nat, pc: Pc) {
    HooksAreGuarded(s, i, pc) && TriesArePaidFor(s, pc)
  }

  predicate SharedIsSound(s: Shared) {
    && (s.sealed ==> s.requested && !s.hooked)
    && (!s.hasRun ==> !s.hooked && !s.lifecycle.Running?) && !s.lifecycle.Detached?
    && (Down(s.lifecycle) ==> s.sealed || !s.hasRun)
    && s.winners <= 1 && (s.winners == 1 ==> Down(s.lifecycle))
  }

  ghost predicate Inv(s: State) {
    SharedIsSound(s.shared) && forall i :: 0 <= i < |s.threads| ==> ThreadIsSound(s.shared, i, s.threads[i])
  }

  /** What one thread can do to the shared state, as seen by the others. */
  predicate Grows(s: Shared, t: Shared) {
    && (t.lifecycle == s.lifecycle || Rank(s.lifecycle) < Rank(t.lifecycle))
    && (s.requested ==> t.requested) && (s.hasRun ==> t.hasRun) && (s.sealed ==> t.sealed)
  }

  /** The lifecycle only ever rises, and nothing that was requested is taken back. */
  lemma EveryChangeRaisesTheRank(s: Shared, i: nat, pc: Pc, ok: bool)
    requires CanMove(s, pc) && TriesArePaidFor(s, pc)
    ensures Grows(s, Move(s, i, pc, ok).1)
  {
  }

  lemma MoveKeepsShared(s: Shared, i: nat, pc: Pc, ok: bool)
    requires CanMove(s, pc) && SharedIsSound(s) && ThreadIsSound(s, i, pc)
    ensures SharedIsSound(Move(s, i, pc, ok).1)
  {
  }

  lemma MoveKeepsItsHooksGuarded(s: Shared, i: nat, pc: Pc, ok: bool)
    requires CanMove(s, pc) && SharedIsSound(s) && HooksAreGuarded(s, i, pc)
    ensures var (p, t) := Move(s, i, pc, ok); HooksAreGuarded(t, i, p)
  {
  }

  lemma MoveKeepsItsTriesPaidFor(s: Shared, i: nat, pc: Pc, ok: bool)
    requires CanMove(s, pc) && TriesArePaidFor(s, pc)
    ensures var (p, t) := Move(s, i, pc, ok); TriesArePaidFor(t, p)
  {
  }

  lemma MoveKeepsHooksGuarded(s: Shared, i: nat, pc: Pc, ok: bool, j: nat, other: Pc)
    requires CanMove(s, pc) && SharedIsSound(s) && ThreadIsSound(s, i, pc) && ThreadIsSound(s, j, other) && i != j
    ensures HooksAreGuarded(Move(s, i, pc, ok).1, j, other)
  {
  }

  lemma GrowingKeepsTriesPaidFor(s: Shared, t: Shared, other: Pc)
    requires Grows(s, t) && TriesArePaidFor(s, other)
    ensures TriesArePaidFor(t, other)
  {
  }

  lemma StepKeepsInv(s: State, i: nat, ok: bool)
    requires Enabled(s, i) && Inv(s)
    ensures Inv(Step(s, i, ok))
  {
    var t := Step(s, i, ok);
    MoveKeepsShared(s.shared, i, s.threads[i], ok);
    MoveKeepsItsHooksGuarded(s.shared, i, s.threads[i], ok);
    MoveKeepsItsTriesPaidFor(s.shared, i, s.threads[i], ok);
    EveryChangeRaisesTheRank(s.shared, i, s.threads[i], ok);
    forall j | 0 <= j < |s.threads| && j != i ensures ThreadIsSound(t.shared, j, t.threads[j]) {
      MoveKeepsHooksGuarded(s.shared, i, s.threads[i], ok, j, s.threads[j]);
      GrowingKeepsTriesPaidFor(s.shared, t.shared, s.threads[j]);
    }
  }

  // Runs

  /** The events of a run: which thread moves, and how what is left open turns out. */
  function Run(others: seq<Pc>, events: seq<(nat, bool)>): Option<State> {
    if events == [] then Some(Start(others))
    else
      var before := Run(others, events[..|events| - 1]);
      var e := events[|events| - 1];
      if before.Some? && Enabled(before.value, e.0) then Some(Step(before.value, e.0, e.1)) else None
  }

  lemma RunOneMore(others: seq<Pc>, events: seq<(nat, bool)>, e: (nat, bool))
    ensures Run(others, events + [e])
            == var before := Run(others, events);
               if before.Some? && Enabled(before.value, e.0) then Some(Step(before.value, e.0, e.1)) else None
  {
  }

  lemma {:induction false} EveryReachableStateIsSound(others: seq<Pc>, events: seq<(nat, bool)>)
    requires (forall k :: 0 <= k < |others| ==> IsEntry(others[k])) && Run(others, events).Some?
    ensures Inv(Run(others, events).value)
  {
    if events != [] {
      var init, e := events[..|events| - 1], events[|events| - 1];
      EveryReachableStateIsSound(others, init);
      StepKeepsInv(Run(others, init).value, e.0, e.1);
    }
  }

  lemma {:induction false} DownStaysDown(others: seq<Pc>, events: seq<(nat, bool)>, more: seq<(nat, bool)>)
    requires forall k :: 0 <= k < |others| ==> IsEntry(others[k])
    requires Run(others, events + more).Some?
    ensures Run(others, events).Some?
    ensures Down(Run(others, events).value.shared.lifecycle) ==> Down(Run(others, events + more).value.shared.lifecycle)
    decreases |more|
  {
    if more == [] {
      assert events + more == events;
    } else {
      var init, e := more[..|more| - 1], more[|more| - 1];
      assert events + more == (events + init) + [e];
      RunOneMore(others, events + init, e);
      DownStaysDown(others, events, init);
      EveryReachableStateIsSound(others, events + init);
      if Down(Run(others, events + init).value.shared.lifecycle) {
        StepStaysDown(Run(others, events + init).value, e.0, e.1);
      }
    }
  }

  lemma StepStaysDown(s: State, i: nat, ok: bool)
    requires Enabled(s, i) && Inv(s) && Down(s.shared.lifecycle)
    ensures Down(Step(s, i, ok).shared.lifecycle)
  {
    assert ThreadIsSound(s.shared, i, s.threads[i]);
    EveryChangeRaisesTheRank(s.shared, i, s.threads[i], ok);
  }

  /** Once the lifecycle is stopping or stopped, the hooks are gone, and no later step of any thread brings
      them back. */
  lemma StoppingMeansUnhookedForever(others: seq<Pc>, events: seq<(nat, bool)>, more: seq<(nat, bool)>)
    requires forall k :: 0 <= k < |others| ==> IsEntry(others[k])
    requires Run(others, events + more).Some?
    ensures Run(others, events).Some?
    ensures Down(Run(others, events).value.shared.lifecycle) ==>
              var s, t := Run(others, events).value.shared, Run(others, events + more).value.shared;
              !s.hooked && !t.hooked && Down(t.lifecycle)
  {
    DownStaysDown(others, events, more);
    EveryReachableStateIsSound(others, events);
    EveryReachableStateIsSound(others, events + more);
  }

  /** A shutdown that returns successfully leaves no hooks behind and the lifecycle down; at most one caller
      ever wins the right to clean up; and no retry loop fails more often than the lifecycle can change. */
  lemma ShutdownKeepsItsPromises(others: seq<Pc>, events: seq<(nat, bool)>, i: nat)
    requires (forall k :: 0 <= k < |others| ==> IsEntry(others[k])) && Run(others, events).Some?
    requires i < |Run(others, events).value.threads|
    ensures var s := Run(others, events).value;
            var pc := s.threads[i];
            && (pc.ShutDown? ==> Down(s.shared.lifecycle) && !s.shared.hooked)
            && s.shared.winners <= 1
            && (pc.BeginLoad? || pc.BeginSwap? || pc.FailLoad? || pc.FailSwap? ==>
                pc.tries <= Rank(s.shared.lifecycle) <= 6)
  {
    EveryReachableStateIsSound(others, events);
    assert ThreadIsSound(Run(others, events).value.shared, i, Run(others, events).value.threads[i]);
  }

  // Progress

  ghost predicate LockIsHeld(s: State) {
    s.shared.lock.Some? ==> s.shared.lock.value < |s.threads| && HoldsTheLock(s.threads[s.shared.lock.value])
  }

  lemma {:induction false} TheLockIsAlwaysHeld(others: seq<Pc>, events: seq<(nat, bool)>)
    requires (forall k :: 0 <= k < |others| ==> IsEntry(others[k])) && Run(others, events).Some?
    ensures LockIsHeld(Run(others, events).value)
  {
    if events != [] {
      var init, e := events[..|events| - 1], events[|events| - 1];
      TheLockIsAlwaysHeld(others, init);
      EveryReachableStateIsSound(others, init);
      var s := Run(others, init).value;
      assert ThreadIsSound(s.shared, e.0, s.threads[e.0]);
    }
  }

  /** No deadlock: as long as some thread has not finished, some thread can move. */
  lemma SomeThreadCanMove(others: seq<Pc>, events: seq<(nat, bool)>, i: nat)
    requires (forall k :: 0 <= k < |others| ==> IsEntry(others[k])) && Run(others, events).Some?
    requires i < |Run(others, events).value.threads|
    requires var pc := Run(others, events).value.threads[i]; !pc.Finished? && !pc.ShutDown?
    ensures var s := Run(others, events).value;
            Enabled(s, i) || (s.shared.lock.Some? && Enabled(s, s.shared.lock.value))
  {
    TheLockIsAlwaysHeld(others, events);
  }

  /** A state that some run of the bootstrap and one shutdown reaches. */
  ghost predicate Reachable(s: Shared, boot: Pc, shutdown: Pc) {
    exists events: seq<(nat, bool)> :: Run([Requesting], events) == Some(State(s, [boot, shutdown]))
  }

  lemma BootMoves(s: Shared, boot: Pc, shutdown: Pc)
    requires Reachable(s, boot, shutdown) && CanMove(s, boot)
    ensures var (pc, t) := Move(s, 0, boot, true); Reachable(t, pc, shutdown)
  {
    var events: seq<(nat, bool)> :| Run([Requesting], events) == Some(State(s, [boot, shutdown]));
    RunOneMore([Requesting], events, (0, true));
    var (pc, t) := Move(s, 0, boot, true);
    assert [boot, shutdown][0 := pc] == [pc, shutdown];
    assert Run([Requesting], events + [(0, true)]) == Some(State(t, [pc, shutdown]));
  }

  lemma ShutdownMoves(s: Shared, boot: Pc, shutdown: Pc)
    requires Reachable(s, boot, shutdown) && CanMove(s, shutdown)
    ensures var (pc, t) := Move(s, 1, shutdown, true); Reachable(t, boot, pc)
  {
    var events: seq<(nat, bool)> :| Run([Requesting], events) == Some(State(s, [boot, shutdown]));
    RunOneMore([Requesting], events, (1, true));
    var (pc, t) := Move(s, 1, shutdown, true);
    assert [boot, shutdown][1 := pc] == [boot, pc];
    assert Run([Requesting], events + [(1, true)]) == Some(State(t, [boot, pc]));
  }

  const ATTACHED := Shared(Attached, false, false, None, false, false, 0)
  const REQUESTED := Shared(Attached, true, false, None, false, false, 0)
  const UNHOOKED := Shared(Attached, true, false, None, false, true, 0)
  const STOPPING := Shared(Stopping, true, false, None, false, true, 1)
  const STOPPED := Shared(Stopped, true, false, None, false, true, 1)

  lemma TheStartIsReachable()
    ensures Reachable(ATTACHED, BootFlag, Requesting)
  {
    assert [BootFlag] + [Requesting] == [BootFlag, Requesting];
    assert Run([Requesting], []) == Some(State(ATTACHED, [BootFlag, Requesting]));
  }

  lemma ShutdownIsRequestedFirst()
    ensures Reachable(REQUESTED, BeginRequest(ByBootstrap), RestoreLock)
  {
    TheStartIsReachable();
    ShutdownMoves(ATTACHED, BootFlag, Requesting);
    BootMoves(REQUESTED, BootFlag, RestoreLock);
  }

  lemma ShutdownRestores()
    ensures Reachable(UNHOOKED, BeginRequest(ByBootstrap), BeginLoad(ByShutdown, 0))
  {
    ShutdownIsRequestedFirst();
    ShutdownMoves(REQUESTED, BeginRequest(ByBootstrap), RestoreLock);
    ShutdownMoves(REQUESTED.(lock := Some(1)), BeginRequest(ByBootstrap), Restoring);
    ShutdownMoves(UNHOOKED, BeginRequest(ByBootstrap), BeginRequest(ByShutdown));
  }

  lemma ShutdownWins()
    ensures Reachable(STOPPING, BeginRequest(ByBootstrap), StopSwap(ByShutdown))
  {
    ShutdownRestores();
    ShutdownMoves(UNHOOKED, BeginRequest(ByBootstrap), BeginLoad(ByShutdown, 0));
    ShutdownMoves(UNHOOKED, BeginRequest(ByBootstrap), BeginSwap(ByShutdown, Attached, 0));
    ShutdownMoves(STOPPING, BeginRequest(ByBootstrap), StopLoad(ByShutdown));
  }

  lemma BootstrapOvertakes()
    ensures Reachable(STOPPING, StopSwap(ByBootstrap), StopSwap(ByShutdown))
  {
    ShutdownWins();
    BootMoves(STOPPING, BeginRequest(ByBootstrap), StopSwap(ByShutdown));
    BootMoves(STOPPING, BeginLoad(ByBootstrap, 0), StopSwap(ByShutdown));
    BootMoves(STOPPING, StopLoad(ByBootstrap), StopSwap(ByShutdown));
  }

  /** Winning the right to clean up does not guarantee success: the bootstrap may mark the lifecycle as stopped
      between the winner's look at it and its last swap, and the winner then reports an error. */
  lemma AWinnerCanStillReportAnError()
    ensures Reachable(STOPPED, FailLoad(0), Finished)
  {
    BootstrapOvertakes();
    BootMoves(STOPPING, StopSwap(ByBootstrap), StopSwap(ByShutdown));
    ShutdownMoves(STOPPED, FailLoad(0), StopSwap(ByShutdown));
  }
}
