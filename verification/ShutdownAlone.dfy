/** What each thread of the shutdown race brings about when no other thread interferes. */
module ShutdownAlone {
  import opened Numbers
  import opened ShutdownRace

  /** Thread `i` takes up to `n` steps, and no other thread moves. */
  function Alone(s: State, i: nat, ok: bool, n: nat): State
    decreases n
  {
    if n == 0 || !Enabled(s, i) then s else Alone(Step(s, i, ok), i, ok, n - 1)
  }

  /** The same, for one thread and what it shares. */
  function Solo(s: Shared, i: nat, pc: Pc, ok: bool, n: nat): (Pc, Shared)
    decreases n
  {
    if n == 0 || !CanMove(s, pc) then (pc, s)
    else
      var (p, t) := Move(s, i, pc, ok);
      Solo(t, i, p, ok, n - 1)
  }

  lemma {:induction false} AloneIsSolo(s: State, i: nat, ok: bool, n: nat)
    requires i < |s.threads|
    ensures var (pc, shared) := Solo(s.shared, i, s.threads[i], ok, n);
            Alone(s, i, ok, n) == State(shared, s.threads[i := pc])
    decreases n
  {
    if n == 0 || !Enabled(s, i) {
      assert s.threads[i := s.threads[i]] == s.threads;
    } else {
      var t := Step(s, i, ok);
      AloneIsSolo(t, i, ok, n - 1);
      var (pc, _) := Solo(t.shared, i, t.threads[i], ok, n - 1);
      assert t.threads[i := pc] == s.threads[i := pc];
    }
  }

  /** Steps left over after a thread has finished change nothing. */
  lemma {:induction false} SoloIsOver(s: Shared, i: nat, pc: Pc, ok: bool, n: nat, more: nat)
    requires n <= more && Solo(s, i, pc, ok, n).0 in {Finished, ShutDown}
    ensures Solo(s, i, pc, ok, more) == Solo(s, i, pc, ok, n)
    decreases n
  {
    if 0 < n && CanMove(s, pc) {
      var (p, t) := Move(s, i, pc, ok);
      SoloIsOver(t, i, p, ok, n - 1, more - 1);
    }
  }

  /** Enabling installs the hooks if and only if the runtime is running, no shutdown was requested, and they can be
      installed; hooks that were there stay. */
  lemma EnablingAlone(s: State, i: nat, ok: bool)
    requires i < |s.threads| && s.threads[i].EnableLock? && s.shared.lock.None?
    ensures var installs := s.shared.lifecycle.Running? && !s.shared.requested && ok;
            Alone(s, i, ok, 4) == State(s.shared.(hooked := s.shared.hooked || installs), s.threads[i := Finished])
  {
    AloneIsSolo(s, i, ok, 4);
    EnablingSolo(s.shared, i, ok);
  }

  lemma EnablingSolo(s: Shared, i: nat, ok: bool)
    requires s.lock.None?
    ensures Solo(s, i, EnableLock, ok, 4)
            == (Finished, s.(hooked := s.hooked || (s.lifecycle.Running? && !s.requested && ok)))
  {
    var held := s.(lock := Some(i));
    assert Solo(s, i, EnableLock, ok, 4) == Solo(held, i, EnableFlag, ok, 3);
  }

  /** Disabling removes them if and only if they can be removed. */
  lemma DisablingAlone(s: State, i: nat, ok: bool)
    requires i < |s.threads| && s.threads[i].DisableLock? && s.shared.lock.None?
    ensures Alone(s, i, ok, 2) == State(s.shared.(hooked := s.shared.hooked && !ok), s.threads[i := Finished])
  {
    AloneIsSolo(s, i, ok, 2);
  }

  /** The lifecycle after `begin_shutdown` and `mark_stopped`, by a caller that nobody disturbs. */
  function StoppedFrom(s: Shared, caller: Caller): Shared {
    if s.lifecycle.Stopped? || (s.lifecycle.Stopping? && caller.ByShutdown?) then s
    else if s.lifecycle.Stopping? || s.lifecycle.Detached? then s.(lifecycle := Stopped)
    else s.(lifecycle := Stopped, winners := s.winners + 1)
  }

  lemma FailingStopped(s: Shared, i: nat, ok: bool, n: nat)
    requires s.lifecycle.Stopped? && 1 <= n
    ensures Solo(s, i, FailLoad(0), ok, n) == (Finished, s)
  {
  }

  lemma AfterStopping(s: Shared, i: nat, caller: Caller, ok: bool, n: nat)
    requires s.lifecycle.Stopped? && 1 <= n
    ensures Solo(s, i, AfterStop(caller, true), ok, n) == (if caller.ByShutdown? then ShutDown else Finished, s)
  {
    FailingStopped(s, i, ok, n);
  }

  lemma StoppingAlone(s: Shared, i: nat, caller: Caller, ok: bool, n: nat)
    requires Down(s.lifecycle) && 3 <= n
    ensures Solo(s, i, StopLoad(caller), ok, n)
            == (if caller.ByShutdown? then ShutDown else Finished, s.(lifecycle := Stopped))
  {
    var stopped := s.(lifecycle := Stopped);
    if s.lifecycle.Stopping? {
      assert Solo(s, i, StopLoad(caller), ok, n) == Solo(s, i, StopSwap(caller), ok, n - 1);
      assert Solo(s, i, StopSwap(caller), ok, n - 1) == Solo(stopped, i, AfterStop(caller, true), ok, n - 2);
      AfterStopping(stopped, i, caller, ok, n - 2);
    } else {
      assert stopped == s;
      AfterStopping(s, i, caller, ok, n - 1);
    }
  }

  lemma BeginningAlone(s: Shared, i: nat, caller: Caller, ok: bool)
    requires !Down(s.lifecycle)
    ensures Solo(s, i, BeginLoad(caller, 0), ok, 6)
            == (if caller.ByShutdown? then ShutDown else Finished, StoppedFrom(s, caller))
  {
    assert Solo(s, i, BeginLoad(caller, 0), ok, 6) == Solo(s, i, BeginSwap(caller, s.lifecycle, 0), ok, 5);
    if s.lifecycle.Detached? {
      var stopped := s.(lifecycle := Stopped);
      assert Solo(s, i, BeginSwap(caller, Detached, 0), ok, 5) == Solo(stopped, i, AfterBegin(caller, false), ok, 4);
      if caller.ByBootstrap? {
        StoppingAlone(stopped, i, caller, ok, 4);
      }
    } else {
      var stopping := s.(lifecycle := Stopping, winners := s.winners + 1);
      assert Solo(s, i, BeginSwap(caller, s.lifecycle, 0), ok, 5) == Solo(stopping, i, StopLoad(caller), ok, 4);
      StoppingAlone(stopping, i, caller, ok, 4);
    }
  }

  lemma EndingAlone(s: Shared, i: nat, caller: Caller, ok: bool)
    requires s.requested
    ensures Solo(s, i, BeginRequest(caller), ok, 7)
            == (if caller.ByShutdown? then ShutDown else Finished, StoppedFrom(s, caller))
  {
    assert Solo(s, i, BeginRequest(caller), ok, 7) == Solo(s, i, BeginLoad(caller, 0), ok, 6);
    if !Down(s.lifecycle) {
      BeginningAlone(s, i, caller, ok);
    } else if caller.ByBootstrap? {
      assert Solo(s, i, BeginLoad(caller, 0), ok, 6) == Solo(s, i, StopLoad(caller), ok, 5);
      StoppingAlone(s, i, caller, ok, 5);
    }
  }

  /** A shutdown removes the hooks, stops the runtime and returns successfully; unless there are hooks that cannot be
      removed, which it leaves as they are, with the lifecycle, and reports an error. */
  lemma ShuttingDownAlone(s: State, i: nat, ok: bool)
    requires i < |s.threads| && s.threads[i].Requesting? && s.shared.lock.None?
    ensures var requested := s.shared.(requested := true);
            Alone(s, i, ok, 10)
            == if s.shared.hooked && !ok then State(requested, s.threads[i := Finished])
               else State(StoppedFrom(requested.(hooked := false, sealed := true), ByShutdown),
                          s.threads[i := ShutDown])
  {
    AloneIsSolo(s, i, ok, 10);
    var requested := s.shared.(requested := true);
    assert Solo(s.shared, i, Requesting, ok, 10) == Solo(requested, i, RestoreLock, ok, 9);
    assert Solo(requested, i, RestoreLock, ok, 9) == Solo(requested.(lock := Some(i)), i, Restoring, ok, 8);
    if !(s.shared.hooked && !ok) {
      var sealed := requested.(hooked := false, sealed := true);
      assert Solo(requested.(lock := Some(i)), i, Restoring, ok, 8) == Solo(sealed, i, BeginRequest(ByShutdown), ok, 7);
      EndingAlone(sealed, i, ByShutdown, ok);
    }
  }

  /** Marking a failure marks it unless the runtime is stopping or stopped. */
  lemma FailingAlone(s: State, i: nat, ok: bool)
    requires i < |s.threads| && s.threads[i] == FailLoad(0)
    ensures Alone(s, i, ok, 2)
            == State(if Down(s.shared.lifecycle) then s.shared else s.shared.(lifecycle := Failed),
                     s.threads[i := Finished])
  {
    AloneIsSolo(s, i, ok, 2);
  }

  /** The loader asks for a shutdown and does nothing else. */
  lemma LoaderAlone(s: State, i: nat, ok: bool)
    requires i < |s.threads| && s.threads[i].LoaderRequest?
    ensures Alone(s, i, ok, 1) == State(s.shared.(requested := true), s.threads[i := Finished])
  {
    AloneIsSolo(s, i, ok, 1);
  }

  /** The bootstrap brings the runtime up and installs the hooks, if its work succeeds; it marks a failure if the work
      fails; and it takes the runtime down instead if a shutdown was requested. */
  lemma BootstrapAlone(s: State, i: nat, ok: bool)
    requires i < |s.threads| && s.threads[i].BootFlag? && s.shared.lock.None? && s.shared.lifecycle.Attached?
    ensures Alone(s, i, ok, 10)
            == State(if s.shared.requested then StoppedFrom(s.shared, ByBootstrap)
                     else if ok then s.shared.(lifecycle := Running, hasRun := true, hooked := true)
                     else s.shared.(lifecycle := Failed),
                     s.threads[i := Finished])
  {
    AloneIsSolo(s, i, ok, 10);
    BootingSolo(s.shared, i, ok);
  }

  lemma BootingSolo(s: Shared, i: nat, ok: bool)
    requires s.lock.None? && s.lifecycle.Attached?
    ensures Solo(s, i, BootFlag, ok, 10)
            == (Finished, if s.requested then StoppedFrom(s, ByBootstrap)
                          else if ok then s.(lifecycle := Running, hasRun := true, hooked := true)
                          else s.(lifecycle := Failed))
  {
    if s.requested {
      RefusingAlone(s, i, ok);
    } else {
      var booting := s.(lifecycle := Bootstrapping);
      assert Solo(s, i, BootFlag, ok, 10) == Solo(s, i, BootBegin, ok, 9);
      assert Solo(s, i, BootBegin, ok, 9) == Solo(booting, i, BootWork, ok, 8);
      if ok {
        WorkingAlone(booting, i);
      } else {
        assert Solo(booting, i, BootWork, ok, 8) == Solo(booting, i, FailLoad(0), ok, 7);
      }
    }
  }

  lemma RefusingAlone(s: Shared, i: nat, ok: bool)
    requires s.lifecycle.Attached? && s.requested
    ensures Solo(s, i, BootFlag, ok, 10) == (Finished, StoppedFrom(s, ByBootstrap))
  {
    assert Solo(s, i, BootFlag, ok, 10) == Solo(s, i, BeginRequest(ByBootstrap), ok, 9);
    EndingAlone(s, i, ByBootstrap, ok);
    SoloIsOver(s, i, BeginRequest(ByBootstrap), ok, 7, 9);
  }

  lemma WorkingAlone(s: Shared, i: nat)
    requires s.lifecycle.Bootstrapping? && !s.requested && s.lock.None?
    ensures Solo(s, i, BootWork, true, 8)
            == (Finished, s.(lifecycle := Running, hasRun := true, hooked := true))
  {
    var running := s.(lifecycle := Running, hasRun := true);
    assert Solo(s, i, BootWork, true, 8) == Solo(s, i, BootFlagAgain, true, 7);
    assert Solo(s, i, BootFlagAgain, true, 7) == Solo(s, i, BootRun, true, 6);
    assert Solo(s, i, BootRun, true, 6) == Solo(running, i, EnableLock, true, 5);
    EnablingSolo(running, i, true);
    SoloIsOver(running, i, EnableLock, true, 4, 5);
  }

  // A run with hooks

  const BOOTING := Shared(Bootstrapping, false, false, None, false, false, 0)
  const RUNNING := Shared(Running, false, false, None, true, false, 0)
  const HOOKED := Shared(Running, false, true, None, true, false, 0)
  const ASKED := Shared(Running, true, true, None, true, false, 0)
  const REMOVED := Shared(Running, true, false, None, true, true, 0)
  const ENDING := Shared(Stopping, true, false, None, true, true, 1)
  const ENDED := Shared(Stopped, true, false, None, true, true, 1)

  lemma BootstrapGetsToWork()
    ensures Reachable(BOOTING, BootWork, Requesting)
  {
    TheStartIsReachable();
    BootMoves(ATTACHED, BootFlag, Requesting);
    BootMoves(ATTACHED, BootBegin, Requesting);
  }

  lemma BootstrapWorks()
    ensures Reachable(BOOTING, BootFlagAgain, Requesting)
  {
    BootstrapGetsToWork();
    BootMoves(BOOTING, BootWork, Requesting);
  }

  lemma BootstrapSucceeds()
    ensures Reachable(BOOTING, BootRun, Requesting)
  {
    BootstrapWorks();
    BootMoves(BOOTING, BootFlagAgain, Requesting);
  }

  lemma RuntimeComesUp()
    ensures Reachable(RUNNING, EnableLock, Requesting)
  {
    BootstrapSucceeds();
    BootMoves(BOOTING, BootRun, Requesting);
  }

  lemma RuntimeIsLocked()
    ensures Reachable(RUNNING.(lock := Some(0)), EnableFlag, Requesting)
  {
    RuntimeComesUp();
    BootMoves(RUNNING, EnableLock, Requesting);
  }

  lemma RuntimeMayBeHooked()
    ensures Reachable(RUNNING.(lock := Some(0)), EnableInstall, Requesting)
  {
    RuntimeIsLocked();
    BootMoves(RUNNING.(lock := Some(0)), EnableFlag, Requesting);
    BootMoves(RUNNING.(lock := Some(0)), EnableState, Requesting);
  }

  /** A run of the bootstrap as it is meant to be: the hooks are there. */
  lemma HooksGetInstalled()
    ensures Reachable(HOOKED, Finished, Requesting) && HOOKED.hooked
  {
    RuntimeMayBeHooked();
    BootMoves(RUNNING.(lock := Some(0)), EnableInstall, Requesting);
  }

  lemma HooksGetRemoved()
    ensures Reachable(REMOVED, Finished, BeginRequest(ByShutdown))
  {
    HooksGetInstalled();
    ShutdownMoves(HOOKED, Finished, Requesting);
    ShutdownMoves(ASKED, Finished, RestoreLock);
    ShutdownMoves(ASKED.(lock := Some(1)), Finished, Restoring);
  }

  lemma RuntimeStops()
    ensures Reachable(ENDING, Finished, StopLoad(ByShutdown))
  {
    HooksGetRemoved();
    ShutdownMoves(REMOVED, Finished, BeginRequest(ByShutdown));
    ShutdownMoves(REMOVED, Finished, BeginLoad(ByShutdown, 0));
    ShutdownMoves(REMOVED, Finished, BeginSwap(ByShutdown, Running, 0));
  }

  /** A shutdown from there removes them, stops the runtime and returns successfully. */
  lemma ShutdownRemovesTheHooks()
    ensures Reachable(ENDED, Finished, ShutDown) && !ENDED.hooked
  {
    RuntimeStops();
    ShutdownMoves(ENDING, Finished, StopLoad(ByShutdown));
    ShutdownMoves(ENDING, Finished, StopSwap(ByShutdown));
  }
}
