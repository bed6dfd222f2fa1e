/** How a shutdown that wins the right to clean up can end: exactly which states still allow it to fail. */
module ShutdownOutcome {
  import opened Numbers
  import opened ShutdownRace

  /** A thread that has won and has only the final mark left to make. */
  predicate HasWon(pc: Pc) {
    (pc.StopLoad? || pc.StopSwap?) && pc.caller.ByShutdown?
  }

  /** Nobody else has won, and once the bootstrap is over nobody else makes the final mark. */
  ghost predicate WinnerIsAlone(s: State) {
    && (forall i :: 0 <= i < |s.threads| && HasWon(s.threads[i]) ==> s.shared.winners == 1)
    && (forall i, j :: 0 <= i < j < |s.threads| ==> !(HasWon(s.threads[i]) && HasWon(s.threads[j])))
    && (forall i :: 0 <= i < |s.threads| && HasWon(s.threads[i]) && s.shared.hasRun ==> s.shared.lifecycle.Stopping?)
  }

  /** What one move means for winning: only a first winner is made, and a made winner keeps its state. */
  lemma MovesMakeOneWinner(s: Shared, i: nat, pc: Pc, ok: bool)
    requires CanMove(s, pc) && SharedIsSound(s) && ThreadIsSound(s, i, pc)
    ensures var (p, t) := Move(s, i, pc, ok);
            && (HasWon(p) && !HasWon(pc) ==> s.winners == 0 && t.winners == 1 && t.lifecycle.Stopping?)
            && (HasWon(pc) || s.winners == 1 ==> t.winners == s.winners)
            && (HasWon(p) && HasWon(pc) ==> t.lifecycle == s.lifecycle == Stopping)
            && (s.lifecycle.Stopping? && t.lifecycle != s.lifecycle ==>
                  HasWon(pc) || pc == StopSwap(ByBootstrap))
            && (t.hasRun && !s.hasRun ==> !Down(s.lifecycle))
  {
  }

  lemma StepKeepsWinnerAlone(s: State, i: nat, ok: bool)
    requires Enabled(s, i) && Inv(s) && WinnerIsAlone(s)
    ensures WinnerIsAlone(Step(s, i, ok))
  {
    assert ThreadIsSound(s.shared, i, s.threads[i]);
    MovesMakeOneWinner(s.shared, i, s.threads[i], ok);
    var t := Step(s, i, ok);
    forall j | 0 <= j < |t.threads| && HasWon(t.threads[j])
      ensures t.shared.winners == 1 && (t.shared.hasRun ==> t.shared.lifecycle.Stopping?)
      ensures forall k :: 0 <= k < |t.threads| && k != j ==> !HasWon(t.threads[k])
    {
      assert j != i ==> HasWon(s.threads[j]) && ThreadIsSound(s.shared, j, s.threads[j]);
    }
  }

  lemma {:induction false} WinnersAreAlone(others: seq<Pc>, events: seq<(nat, bool)>)
    requires (forall k :: 0 <= k < |others| ==> IsEntry(others[k])) && Run(others, events).Some?
    ensures WinnerIsAlone(Run(others, events).value)
  {
    if events != [] {
      var init, e := events[..|events| - 1], events[|events| - 1];
      WinnersAreAlone(others, init);
      EveryReachableStateIsSound(others, init);
      StepKeepsWinnerAlone(Run(others, init).value, e.0, e.1);
    }
  }

  /** The next step of a thread that has won is an error. */
  predicate Fails(s: State, i: nat) {
    i < |s.threads| && HasWon(s.threads[i]) && Move(s.shared, i, s.threads[i], true).0.Finished?
  }

  /** Once the bootstrap has brought the lifecycle to running, no winner ever fails: whoever has seen it running
      can rely on that before calling. */
  lemma NoWinnerFailsAfterTheBootstrap(others: seq<Pc>, events: seq<(nat, bool)>, i: nat)
    requires (forall k :: 0 <= k < |others| ==> IsEntry(others[k])) && Run(others, events).Some?
    ensures var s := Run(others, events).value;
            && (s.shared.lifecycle.Running? ==> s.shared.hasRun)
            && (s.shared.hasRun ==> !Fails(s, i))
  {
    EveryReachableStateIsSound(others, events);
    WinnersAreAlone(others, events);
  }

  // Before the bootstrap is over

  /** Further steps from a state. */
  function Play(s: State, moves: seq<(nat, bool)>): Option<State>
    decreases |moves|
  {
    if moves == [] then Some(s)
    else if Enabled(s, moves[0].0) then Play(Step(s, moves[0].0, moves[0].1), moves[1..]) else None
  }

  /** Some continuation ends with thread `i` having won and about to fail. */
  ghost predicate CanFail(s: State, i: nat) {
    exists moves: seq<(nat, bool)> :: Play(s, moves).Some? && Fails(Play(s, moves).value, i)
  }

  /** The bootstrap is at a point from which a shutdown request still leads it to mark the lifecycle as stopped
      itself. */
  predicate CanOvertake(l: LifecycleState, boot: Pc) {
    match boot
    case BootFlag | BootWork | BootFlagAgain => true
    case BootBegin => l.Attached?
    case BeginRequest(caller) => caller.ByBootstrap?
    case BeginLoad(caller, _) => caller.ByBootstrap?
    case BeginSwap(caller, _, _) => caller.ByBootstrap?
    case _ => false
  }

  /** What a state still allows: the lifecycle is up, and the bootstrap can overtake. */
  predicate LeavesRoomToFail(s: State) {
    s.threads != [] && !Down(s.shared.lifecycle) && CanOvertake(s.shared.lifecycle, s.threads[0])
  }

  // It cannot happen otherwise

  /** No failure of thread `i` can come any more: it has lost, or nobody is left to overtake it. */
  ghost predicate Safe(s: State, i: nat) {
    && i < |s.threads| && Inv(s) && WinnerIsAlone(s)
    && (|| (Down(s.shared.lifecycle) && !HasWon(s.threads[i]))
        || (!CanOvertake(s.shared.lifecycle, s.threads[0])
            && s.threads[0] != StopLoad(ByBootstrap) && s.threads[0] != StopSwap(ByBootstrap)
            && (HasWon(s.threads[i]) ==> s.shared.lifecycle.Stopping?)))
  }

  /** A bootstrap that cannot overtake never will. */
  lemma HarmlessStaysHarmless(s: Shared, i: nat, pc: Pc, ok: bool, boot: Pc)
    requires CanMove(s, pc) && SharedIsSound(s) && ThreadIsSound(s, i, pc)
    requires !CanOvertake(s.lifecycle, boot) && boot != StopLoad(ByBootstrap) && boot != StopSwap(ByBootstrap)
    requires i == 0 ==> pc == boot
    ensures var (p, t) := Move(s, i, pc, ok);
            var after := if i == 0 then p else boot;
            !CanOvertake(t.lifecycle, after) && after != StopLoad(ByBootstrap) && after != StopSwap(ByBootstrap)
  {
    EveryChangeRaisesTheRank(s, i, pc, ok);
  }

  lemma StepStaysSafe(s: State, i: nat, j: nat, ok: bool)
    requires Safe(s, i) && Enabled(s, j)
    ensures Safe(Step(s, j, ok), i)
  {
    var t := Step(s, j, ok);
    StepKeepsInv(s, j, ok);
    StepKeepsWinnerAlone(s, j, ok);
    assert ThreadIsSound(s.shared, j, s.threads[j]);
    MovesMakeOneWinner(s.shared, j, s.threads[j], ok);
    if Down(s.shared.lifecycle) && !HasWon(s.threads[i]) {
      StepStaysDown(s, j, ok);
    } else {
      HarmlessStaysHarmless(s.shared, j, s.threads[j], ok, s.threads[0]);
    }
  }

  lemma {:induction false} SafeNeverFails(s: State, i: nat, moves: seq<(nat, bool)>)
    requires Safe(s, i) && Play(s, moves).Some?
    ensures !Fails(Play(s, moves).value, i)
    decreases |moves|
  {
    if moves != [] {
      StepStaysSafe(s, i, moves[0].0, moves[0].1);
      SafeNeverFails(Step(s, moves[0].0, moves[0].1), i, moves[1..]);
    }
  }

  // It can happen then

  lemma OneMoveEarlier(s: State, j: nat, ok: bool, i: nat)
    requires Enabled(s, j) && CanFail(Step(s, j, ok), i)
    ensures CanFail(s, i)
  {
    var moves: seq<(nat, bool)> :|
      Play(Step(s, j, ok), moves).Some? && Fails(Play(Step(s, j, ok), moves).value, i);
    var longer := [(j, ok)] + moves;
    assert longer[1..] == moves;
    assert Play(s, longer) == Play(Step(s, j, ok), moves);
  }

  /** How far the bootstrap is from its final mark. */
  function Distance(boot: Pc): nat {
    match boot
    case StopSwap(_) => 1
    case StopLoad(_) => 2
    case BeginLoad(_, _) => 3
    case BeginRequest(_) => 4
    case BeginSwap(_, _, _) => 4
    case BootFlagAgain => 5
    case BootFlag => 5
    case BootWork => 6
    case _ => 0
  }

  predicate OnItsWay(boot: Pc) {
    || boot.BootFlag? || boot.BootWork? || boot.BootFlagAgain?
    || ((boot.BeginRequest? || boot.BeginLoad? || boot.BeginSwap? || boot.StopLoad? || boot.StopSwap?)
        && boot.caller.ByBootstrap?)
  }

  /** The winner stands still before its last swap while the bootstrap walks up and makes the final mark. */
  lemma {:induction false} BootstrapOvertakesTheWinner(s: State, i: nat)
    requires 0 < i < |s.threads| && s.threads[i] == StopSwap(ByShutdown)
    requires s.shared.lifecycle.Stopping? && s.shared.requested && OnItsWay(s.threads[0])
    requires s.threads[0].BeginSwap? ==> !Down(s.threads[0].seen)
    ensures CanFail(s, i)
    decreases Distance(s.threads[0])
  {
    var t := Step(s, 0, true);
    if s.threads[0].StopSwap? {
      assert Play(t, []) == Some(t) && Fails(t, i);
    } else {
      BootstrapOvertakesTheWinner(t, i);
    }
    OneMoveEarlier(s, 0, true, i);
  }

  /** How far a shutdown is from its last swap. */
  function StepsToWin(pc: Pc): nat {
    match pc
    case Requesting => 7
    case RestoreLock => 6
    case Restoring => 5
    case BeginRequest(_) => 4
    case BeginLoad(_, _) => 3
    case BeginSwap(_, _, _) => 2
    case StopLoad(_) => 1
    case _ => 0
  }

  /** Meanwhile a shutdown that is let through wins. */
  lemma {:induction false} ShutdownGetsToItsLastSwap(s: State, i: nat)
    requires 0 < i < |s.threads| && !s.shared.lifecycle.Detached?
    requires OnItsWay(s.threads[0]) && (s.threads[0].BeginSwap? ==> !Down(s.threads[0].seen))
    requires var pc := s.threads[i];
             || (pc.Requesting? && s.shared.lock.None?)
             || (s.shared.requested
                 && (|| (pc.RestoreLock? && s.shared.lock.None?) || pc.Restoring?
                     || ((pc.BeginRequest? || pc.BeginLoad?) && pc.caller.ByShutdown?)
                     || (pc.BeginSwap? && pc.caller.ByShutdown? && pc.seen == s.shared.lifecycle)))
    requires !Down(s.shared.lifecycle)
    ensures CanFail(s, i)
    decreases StepsToWin(s.threads[i])
  {
    var t := Step(s, i, true);
    if s.threads[i].BeginSwap? {
      BootstrapOvertakesTheWinner(Step(t, i, true), i);
      OneMoveEarlier(t, i, true, i);
    } else {
      ShutdownGetsToItsLastSwap(t, i);
    }
    OneMoveEarlier(s, i, true, i);
  }

  function StepsToRelease(pc: Pc): nat {
    match pc
    case EnableFlag => 3
    case EnableState => 2
    case _ => 1
  }

  /** Whoever holds the lock can be let finish first. */
  lemma {:induction false} LockIsReleasedFirst(s: State, i: nat)
    requires Inv(s) && LockIsHeld(s) && 0 < i < |s.threads| && s.threads[i].Requesting?
    requires !Down(s.shared.lifecycle) && OnItsWay(s.threads[0])
    ensures CanFail(s, i)
    decreases if s.shared.lock.Some? then StepsToRelease(s.threads[s.shared.lock.value]) else 0
  {
    assert ThreadIsSound(s.shared, 0, s.threads[0]);
    if s.shared.lock.None? {
      ShutdownGetsToItsLastSwap(s, i);
    } else {
      var h := s.shared.lock.value;
      StepKeepsInv(s, h, false);
      LockIsReleasedFirst(Step(s, h, false), i);
      OneMoveEarlier(s, h, false, i);
    }
  }

  /** A shutdown that is about to be called can win and still report an error if and only if, at that moment, the
      lifecycle is up and the bootstrap has not yet passed its last look at the shutdown flag. */
  lemma AWinnerFailsExactlyWhenOvertaken(others: seq<Pc>, events: seq<(nat, bool)>, i: nat)
    requires (forall k :: 0 <= k < |others| ==> IsEntry(others[k])) && Run(others, events).Some?
    requires i < |Run(others, events).value.threads| && Run(others, events).value.threads[i].Requesting?
    ensures CanFail(Run(others, events).value, i) <==> LeavesRoomToFail(Run(others, events).value)
  {
    var s := Run(others, events).value;
    EveryReachableStateIsSound(others, events);
    WinnersAreAlone(others, events);
    TheLockIsAlwaysHeld(others, events);
    assert ThreadIsSound(s.shared, 0, s.threads[0]);
    if LeavesRoomToFail(s) {
      if s.threads[0].BootBegin? {
        StepKeepsInv(s, 0, true);
        LockIsReleasedFirst(Step(s, 0, true), i);
        OneMoveEarlier(s, 0, true, i);
      } else {
        LockIsReleasedFirst(s, i);
      }
    } else {
      forall moves: seq<(nat, bool)> | Play(s, moves).Some? ensures !Fails(Play(s, moves).value, i) {
        SafeNeverFails(s, i, moves);
      }
    }
  }
}
