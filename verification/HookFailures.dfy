/** The hook transaction undisturbed, and how a failure of it comes to pass for a success: for all imports that allow
    it, and on one concrete process. */
module HookFailures {
  import opened Numbers
  import opened HookTransaction

  /** Wherever the imports have a spare, an enable with no injected fault can fail and leave a record that passes
      for complete, so that the next one reports success with an import that is not hooked. */
  method ASpareLetsAFailurePass(process: Process, table: seq<nat>, apis: seq<TimerApi>, m: nat)
    returns (hooks: TimerHooks, enabled: bool, again: bool)
    requires forall i :: 0 <= i < |table| ==> Mapped(process, table[i])
    requires apis != [] && forall r :: 0 <= r < |apis| ==> apis[r].original != apis[r].replacement
    requires CoversAll(Scanned(process, table, apis), apis) && CoveredWithSpare(Scanned(process, table, apis), m, apis)
    ensures hooks.Valid() && hooks.original == process && hooks.importTable == table && hooks.apis == apis
    ensures !enabled && again && hooks.PassesForComplete(hooks.Found())
  {
    hooks := new TimerHooks(process, table, apis);
    var patchFaults: nat -> PatchFault := k => PatchFault(k != m, true);
    var rollbackFaults: nat -> RestoreFault := k => RestoreFault(PatchFault(false, false), true);
    SpareLooksComplete(hooks.Found(), m, apis, patchFaults, rollbackFaults);
    enabled := hooks.Enable(true, true, true, None, patchFaults, rollbackFaults);
    again := hooks.Enable(true, true, true, None, patchFaults, rollbackFaults);
  }

  /** A rollback that can do nothing leaves a record of the covering part, which does not pass, and which a disable
      that only closes pages makes pass. */
  lemma StuckAtASpare(o: Process, imports: seq<Import>, apis: seq<TimerApi>, m: nat,
      patchFaults: nat -> PatchFault, stuck: nat -> RestoreFault)
    requires ScanOf(o, imports) && CoveredWithSpare(imports, m, apis)
    requires forall k :: patchFaults(k) == PatchFault(k != m, true)
    requires forall k :: stuck(k) == RestoreFault(PatchFault(false, false), false)
    ensures var slots := ReachedSlots(o, imports, None, patchFaults);
            |slots| == m && (forall k :: 0 <= k < m ==> slots[k].active) && !RestoresAll(slots, stuck)
    ensures !LooksComplete(imports, apis, None, patchFaults, stuck)
    ensures !CanInstall(imports, |imports|, None, patchFaults)
  {
    HookedFromIs(imports, 0, m, None, patchFaults);
    ReachedAt(o, imports, None, patchFaults);
    assert Pending(Settled(ReachedSlots(o, imports, None, patchFaults)[0], stuck(0)));
    assert !Hooks(imports, m, None, patchFaults);
  }

  lemma StuckRemainsPass(o: Process, imports: seq<Import>, apis: seq<TimerApi>, m: nat,
      patchFaults: nat -> PatchFault, stuck: nat -> RestoreFault, after: seq<HookSlot>, closing: nat -> RestoreFault)
    requires ScanOf(o, imports) && CoveredWithSpare(imports, m, apis)
    requires forall k :: patchFaults(k) == PatchFault(k != m, true)
    requires forall k :: stuck(k) == RestoreFault(PatchFault(false, false), false)
    requires forall k :: closing(k) == RestoreFault(PatchFault(false, false), true)
    requires IsSettled(after, ReachedSlots(o, imports, None, patchFaults), stuck)
    ensures RemainsLookFull(after, imports, apis, closing) && exists i :: IsSpare(imports, |after|, i)
  {
    StuckAtASpare(o, imports, apis, m, patchFaults, stuck);
  }

  lemma StuckIsTakenBack(hooks: TimerHooks, m: nat, patchFaults: nat -> PatchFault, stuck: nat -> RestoreFault,
      closing: nat -> RestoreFault)
    requires hooks.Rest() && hooks.TakenBack(hooks.Found(), None, patchFaults, stuck)
    requires CoveredWithSpare(hooks.Found(), m, hooks.apis)
    requires forall k :: patchFaults(k) == PatchFault(k != m, true)
    requires forall k :: stuck(k) == RestoreFault(PatchFault(false, false), false)
    requires forall k :: closing(k) == RestoreFault(PatchFault(false, false), true)
    ensures hooks.record.Some? && hooks.LeavesAPass(hooks.record.value, closing)
    ensures !hooks.PassesForComplete(hooks.Found())
  {
    StuckAtASpare(hooks.original, hooks.Found(), hooks.apis, m, patchFaults, stuck);
    StuckRemainsPass(hooks.original, hooks.Found(), hooks.apis, m, patchFaults, stuck, hooks.record.value, closing);
  }

  /** An enable that fails after the covering part, and a rollback that can neither open nor close a page. */
  method FailStuck(hooks: TimerHooks, m: nat, patchFaults: nat -> PatchFault, stuck: nat -> RestoreFault,
      ghost closing: nat -> RestoreFault)
    returns (enabled: bool)
    requires hooks.Valid() && hooks.record.None?
    requires CoversAll(hooks.Found(), hooks.apis) && CoveredWithSpare(hooks.Found(), m, hooks.apis)
    requires forall k :: patchFaults(k) == PatchFault(k != m, true)
    requires forall k :: stuck(k) == RestoreFault(PatchFault(false, false), false)
    requires forall k :: closing(k) == RestoreFault(PatchFault(false, false), true)
    modifies hooks
    ensures hooks.Valid() && !enabled && !hooks.PassesForComplete(hooks.Found())
    ensures hooks.record.Some? && hooks.LeavesAPass(hooks.record.value, closing)
    ensures hooks.callbacks == old(hooks.callbacks)
  {
    assert !CanInstall(hooks.Found(), |hooks.Found()|, None, patchFaults) by {
      StuckAtASpare(hooks.original, hooks.Found(), hooks.apis, m, patchFaults, stuck);
    }
    enabled := hooks.Enable(true, true, true, None, patchFaults, stuck);
    StuckIsTakenBack(hooks, m, patchFaults, stuck, closing);
  }

  /** That failure, a disable that can only close pages, and one more enable. */
  method FailStuckAndDisable(hooks: TimerHooks, m: nat, patchFaults: nat -> PatchFault,
      stuck: nat -> RestoreFault, closing: nat -> RestoreFault)
    returns (enabled: bool, ghost passed: bool, disabled: bool, again: bool)
    requires hooks.Valid() && hooks.record.None? && hooks.callbacks == 0
    requires CoversAll(hooks.Found(), hooks.apis) && CoveredWithSpare(hooks.Found(), m, hooks.apis)
    requires forall k :: patchFaults(k) == PatchFault(k != m, true)
    requires forall k :: stuck(k) == RestoreFault(PatchFault(false, false), false)
    requires forall k :: closing(k) == RestoreFault(PatchFault(false, false), true)
    modifies hooks
    ensures hooks.Valid() && !enabled && !passed && !disabled && again && hooks.PassesForComplete(hooks.Found())
  {
    enabled := FailStuck(hooks, m, patchFaults, stuck, closing);
    passed := hooks.PassesForComplete(hooks.Found());
    disabled := hooks.Disable(closing, true);
    again := hooks.Enable(true, true, true, None, patchFaults, stuck);
  }

  /** Undisturbed, an enable hooks every pointer to a timer function. */
  method EnableUndisturbed(hooks: TimerHooks, patchFaults: nat -> PatchFault, rollbackFaults: nat -> RestoreFault)
    returns (enabled: bool)
    requires hooks.Valid() && hooks.record.None? && CoversAll(hooks.Found(), hooks.apis)
    requires forall k :: 0 <= k < |hooks.Found()| ==> hooks.Found()[k].address % 8 == 0 && Fresh(hooks.Found(), k)
    requires forall k :: patchFaults(k) == PatchFault(true, true)
    modifies hooks
    ensures hooks.Valid() && enabled && hooks.record.Some? && hooks.callbacks == old(hooks.callbacks)
    ensures HooksTheTable(hooks.original, hooks.importTable, hooks.apis, hooks.process)
  {
    assert CanInstall(hooks.Found(), |hooks.Found()|, None, patchFaults);
    enabled := hooks.Enable(true, true, true, None, patchFaults, rollbackFaults);
  }

  /** And a disable brings the process back to what it was. */
  method DisableUndisturbed(hooks: TimerHooks, faults: nat -> RestoreFault) returns (disabled: bool)
    requires hooks.Valid() && hooks.record.Some? && hooks.callbacks == 0
    requires forall k :: faults(k) == RestoreFault(PatchFault(true, true), true)
    modifies hooks
    ensures hooks.Valid() && disabled && hooks.record.None? && hooks.process == hooks.original
  {
    assert RestoresAll(hooks.record.value, faults);
    disabled := hooks.Disable(faults, true);
  }

  // The failure that passes for a success, on one input

  lemma {:induction false} ScannedAtOneApi(address: nat, apis: seq<TimerApi>, r: nat)
    requires r < |apis| && forall j :: 0 <= j < |apis| && j != r ==> apis[j].original != apis[r].original
    ensures ScannedAt(address, apis[r].original, apis) == [Import(address, apis[r].original, apis[r].replacement)]
    decreases |apis|
  {
    var n := |apis| - 1;
    if r < n {
      ScannedAtOneApi(address, apis[..n], r);
    } else {
      ScannedAtNoApi(address, apis[r].original, apis[..n]);
    }
  }

  lemma {:induction false} ScannedAtNoApi(address: nat, pointer: nat, apis: seq<TimerApi>)
    requires forall j :: 0 <= j < |apis| ==> apis[j].original != pointer
    ensures ScannedAt(address, pointer, apis) == []
  {
    if apis != [] {
      ScannedAtNoApi(address, pointer, apis[..|apis| - 1]);
    }
  }

  /** The pointer at `a` leads to one timer function. */
  predicate LeadsToOne(p: Process, a: nat, apis: seq<TimerApi>, i: Import) {
    Mapped(p, a) && ScannedAt(a, p.pointers[a], apis) == [i]
  }

  /** One more pointer that leads to one timer function makes one more import. */
  lemma ScannedOneMore(p: Process, table: seq<nat>, a: nat, apis: seq<TimerApi>, i: Import, longer: seq<nat>)
    requires (forall k :: 0 <= k < |table| ==> Mapped(p, table[k])) && LeadsToOne(p, a, apis, i)
    requires longer == table + [a]
    ensures forall k :: 0 <= k < |longer| ==> Mapped(p, longer[k])
    ensures Scanned(p, longer, apis) == Scanned(p, table, apis) + [i]
  {
    assert longer[..|table|] == table;
  }

  const TIMER_APIS := [TimerApi(1, 11), TimerApi(2, 12), TimerApi(3, 13), TimerApi(4, 14)]
  const FIVE_POINTERS := Process(map[8 := 1, 16 := 2, 24 := 3, 32 := 4, 40 := 1], map[0 := 2])
  const FIVE_ADDRESSES := [8, 16, 24, 32, 40]
  const FIVE_IMPORTS := [Import(8, 1, 11), Import(16, 2, 12), Import(24, 3, 13), Import(32, 4, 14), Import(40, 1, 11)]

  lemma OneOfFive(table: seq<nat>, a: nat, r: nat, longer: seq<nat>)
    requires r < 4 && Mapped(FIVE_POINTERS, a) && FIVE_POINTERS.pointers[a] == TIMER_APIS[r].original
    requires (forall k :: 0 <= k < |table| ==> Mapped(FIVE_POINTERS, table[k])) && longer == table + [a]
    ensures forall k :: 0 <= k < |longer| ==> Mapped(FIVE_POINTERS, longer[k])
    ensures Scanned(FIVE_POINTERS, longer, TIMER_APIS)
            == Scanned(FIVE_POINTERS, table, TIMER_APIS)
               + [Import(a, TIMER_APIS[r].original, TIMER_APIS[r].replacement)]
  {
    ScannedAtOneApi(a, TIMER_APIS, r);
    ScannedOneMore(FIVE_POINTERS, table, a, TIMER_APIS,
                   Import(a, TIMER_APIS[r].original, TIMER_APIS[r].replacement), longer);
  }

  lemma FiveAreScanned()
    ensures Scanned(FIVE_POINTERS, FIVE_ADDRESSES, TIMER_APIS) == FIVE_IMPORTS
  {
    OneOfFive([], 8, 0, [8]);
    OneOfFive([8], 16, 1, [8, 16]);
    OneOfFive([8, 16], 24, 2, [8, 16, 24]);
    OneOfFive([8, 16, 24], 32, 3, [8, 16, 24, 32]);
    OneOfFive([8, 16, 24, 32], 40, 0, FIVE_ADDRESSES);
  }

  /** The first four imports cover the timer functions, and the fifth is a spare. */
  lemma FiveHaveASpare()
    ensures CoversAll(FIVE_IMPORTS, TIMER_APIS) && CoveredWithSpare(FIVE_IMPORTS, 4, TIMER_APIS)
  {
    assert FIVE_IMPORTS[0].replacement == 11 && FIVE_IMPORTS[1].replacement == 12;
    assert FIVE_IMPORTS[2].replacement == 13 && FIVE_IMPORTS[3].replacement == 14;
    assert IsSpare(FIVE_IMPORTS, 4, 4);
  }

  /** An ordinary enable, with no injected fault: the page of the fifth import does not open, and no page opens for
      the rollback. It reports failure, and leaves a record that passes for complete with one import not hooked. */
  method AFailedEnableCanLookInstalled() returns (hooks: TimerHooks, enabled: bool)
    ensures hooks.Valid() && hooks.original == FIVE_POINTERS && hooks.apis == TIMER_APIS
    ensures !enabled && hooks.PassesForComplete(FIVE_IMPORTS)
  {
    hooks := new TimerHooks(FIVE_POINTERS, FIVE_ADDRESSES, TIMER_APIS);
    var patchFaults: nat -> PatchFault := k => PatchFault(k != 4, true);
    var rollbackFaults: nat -> RestoreFault := k => RestoreFault(PatchFault(false, false), true);
    FiveAreScanned();
    FiveHaveASpare();
    SpareLooksComplete(FIVE_IMPORTS, 4, TIMER_APIS, patchFaults, rollbackFaults);
    enabled := hooks.Enable(true, true, true, None, patchFaults, rollbackFaults);
  }

  /** The same failure, but the rollback can close no page either: the record does not pass. A disable that opens
      no page and closes every page makes it pass, and the next enable reports success. */
  method AFailedDisableCanLookInstalled()
    returns (hooks: TimerHooks, enabled: bool, ghost passed: bool, disabled: bool, again: bool)
    ensures hooks.Valid() && hooks.original == FIVE_POINTERS && hooks.apis == TIMER_APIS
    ensures !enabled && !passed && !disabled && again && hooks.PassesForComplete(FIVE_IMPORTS)
  {
    hooks := new TimerHooks(FIVE_POINTERS, FIVE_ADDRESSES, TIMER_APIS);
    FiveAreScanned();
    FiveHaveASpare();
    enabled, passed, disabled, again := FailStuckAndDisable(hooks, 4, k => PatchFault(k != 4, true),
        k => RestoreFault(PatchFault(false, false), false), k => RestoreFault(PatchFault(false, false), true));
  }
}
