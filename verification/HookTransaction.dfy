/** Installing and removing timer hooks: import pointers swapped one by one under page protections that may
    fail to open, fail to close, and be shared by several pointers. */
module HookTransaction {
  import opened Numbers

  const PAGE_READWRITE: nat := 0x04
  const PAGE_SIZE: nat := 4096

  /** The part of the process the hooks touch: pointers by address, and protections by page. */
  datatype Process = Process(pointers: map<nat, nat>, protections: map<nat, nat>)

  datatype HookSlot = HookSlot(
    address: nat, original: nat, replacement: nat, originalProtection: nat, active: bool, protectionRestored: bool)

  /** One pointer to hook, as the scan of the imports found it. */
  datatype Import = Import(address: nat, original: nat, replacement: nat)

  /** Which of the two protection changes of a patch succeed. */
  datatype PatchFault = PatchFault(opens: bool, closes: bool)

  datatype RestoreFault = RestoreFault(patch: PatchFault, page: bool)

  datatype PatchOutcome = PatchOutcome(swapped: bool, protectionRestored: bool, originalProtection: Option<nat>)

  function Page(address: nat): nat {
    address / PAGE_SIZE
  }

  predicate Mapped(p: Process, address: nat) {
    address in p.pointers && Page(address) in p.protections
  }

  function VirtualProtect(p: Process, address: nat, protection: nat, succeeds: bool): Process {
    if succeeds then p.(protections := p.protections[Page(address) := protection]) else p
  }

  /** Open the page, compare and swap the pointer, close the page again. */
  function PatchSlot(p: Process, address: nat, expected: nat, replacement: nat,
      f: PatchFault): (r: (Process, PatchOutcome))
    requires Mapped(p, address)
  {
    if address % 8 != 0 || !f.opens then (p, PatchOutcome(false, false, None))
    else
      var previous := p.protections[Page(address)];
      var open := VirtualProtect(p, address, PAGE_READWRITE, true);
      var swapped := open.pointers[address] == expected;
      var patched := if swapped then open.(pointers := open.pointers[address := replacement]) else open;
      (VirtualProtect(patched, address, previous, f.closes), PatchOutcome(swapped, f.closes, Some(previous)))
  }

  // Restoring

  predicate Pending(s: HookSlot) {
    s.active || !s.protectionRestored
  }

  predicate AllRestored(slots: seq<HookSlot>) {
    forall k :: 0 <= k < |slots| ==> !Pending(slots[k])
  }

  /** One slot: the pointer if it is still swapped, and then always the page. */
  function RestoreOne(p: Process, s: HookSlot, f: RestoreFault): (r: (Process, HookSlot))
    requires Mapped(p, s.address)
  {
    if !Pending(s) then (p, s)
    else
      var (q, swapped) :=
        if s.active then
          var (q, outcome) := PatchSlot(p, s.address, s.replacement, s.original, f.patch);
          (q, outcome.swapped)
        else (p, false);
      (VirtualProtect(q, s.address, s.originalProtection, f.page),
       s.(active := s.active && !swapped, protectionRestored := f.page))
  }

  // What is owed

  /** A recorded slot tells the truth about the process before hooking, and about its pointer now. */
  predicate SlotIsTrue(o: Process, p: Process, s: HookSlot) {
    && Mapped(o, s.address) && s.address % 8 == 0
    && s.original == o.pointers[s.address] && s.replacement != s.original
    && s.originalProtection == o.protections[Page(s.address)]
    && (s.active ==> s.address in p.pointers && p.pointers[s.address] == s.replacement)
  }

  ghost predicate CoversPointer(slots: seq<HookSlot>, a: nat) {
    exists k :: 0 <= k < |slots| && slots[k].address == a && slots[k].active
  }

  ghost predicate CoversPage(slots: seq<HookSlot>, page: nat) {
    exists k :: 0 <= k < |slots| && Page(slots[k].address) == page && !slots[k].protectionRestored
  }

  ghost predicate PointersAreCovered(o: Process, p: Process, slots: seq<HookSlot>) {
    && p.pointers.Keys == o.pointers.Keys
    && forall a | a in o.pointers :: p.pointers[a] == o.pointers[a] || CoversPointer(slots, a)
  }

  ghost predicate PagesAreCovered(o: Process, p: Process, slots: seq<HookSlot>) {
    && p.protections.Keys == o.protections.Keys
    && forall g | g in o.protections :: p.protections[g] == o.protections[g] || CoversPage(slots, g)
  }

  ghost predicate SlotsAreTrue(o: Process, p: Process, slots: seq<HookSlot>) {
    && (forall k :: 0 <= k < |slots| ==> SlotIsTrue(o, p, slots[k]))
    && (forall j, k :: 0 <= j < k < |slots| && slots[j].active && slots[k].active ==>
        slots[j].address != slots[k].address)
  }

  /** Ownership: every swapped pointer and every altered page is recorded as still to be restored. */
  ghost predicate Owns(o: Process, p: Process, slots: seq<HookSlot>) {
    PointersAreCovered(o, p, slots) && PagesAreCovered(o, p, slots) && SlotsAreTrue(o, p, slots)
  }

  lemma NothingPendingIsOriginal(o: Process, p: Process, slots: seq<HookSlot>)
    requires Owns(o, p, slots) && AllRestored(slots)
    ensures p == o
  {
  }

  /** What restoring one slot does to the process and to the slot, whatever fails. */
  lemma RestoreOneEffect(o: Process, p: Process, s: HookSlot, f: RestoreFault)
    requires Mapped(p, s.address) && SlotIsTrue(o, p, s)
    ensures var (q, t) := RestoreOne(p, s, f);
            && SlotIsTrue(o, q, t) && t.address == s.address && (t.active ==> s.active)
            && q.pointers == (if s.active && !t.active then p.pointers[s.address := s.original] else p.pointers)
            && q.protections.Keys == p.protections.Keys
            && (forall g | g in p.protections && g != Page(s.address) :: q.protections[g] == p.protections[g])
            && (Pending(s) && t.protectionRestored ==> q.protections[Page(s.address)] == s.originalProtection)
            && (!Pending(s) ==> q == p && t == s)
  {
  }

  lemma CoverageMoves(slots: seq<HookSlot>, k: nat, t: HookSlot)
    requires k < |slots| && t.address == slots[k].address && (t.active ==> slots[k].active)
    ensures forall a :: CoversPointer(slots, a) && (t.active || a != t.address || !slots[k].active)
                        ==> CoversPointer(slots[k := t], a)
    ensures forall g :: CoversPage(slots, g) && g != Page(t.address) ==> CoversPage(slots[k := t], g)
  {
    var after := slots[k := t];
    forall a | CoversPointer(slots, a) && (t.active || a != t.address || !slots[k].active)
      ensures CoversPointer(after, a)
    {
      var j :| 0 <= j < |slots| && slots[j].address == a && slots[j].active;
      assert after[j].address == a && after[j].active;
    }
    forall g | CoversPage(slots, g) && g != Page(t.address) ensures CoversPage(after, g) {
      var j :| 0 <= j < |slots| && Page(slots[j].address) == g && !slots[j].protectionRestored;
      assert Page(after[j].address) == g && !after[j].protectionRestored;
    }
  }

  /** Restoring one slot, with any of its three steps failing, loses no obligation. */
  lemma RestoreOneOwns(o: Process, p: Process, slots: seq<HookSlot>, k: nat, f: RestoreFault)
    requires Owns(o, p, slots) && k < |slots|
    ensures Mapped(p, slots[k].address)
    ensures var (q, t) := RestoreOne(p, slots[k], f); Owns(o, q, slots[k := t])
  {
    var s := slots[k];
    assert SlotIsTrue(o, p, s);
    var (q, t) := RestoreOne(p, s, f);
    RestoreOneEffect(o, p, s, f);
    if Pending(s) {
      var after := slots[k := t];
      CoverageMoves(slots, k, t);
      assert PagesAreCovered(o, q, after) by {
        assert !t.protectionRestored ==> after[k] == t && CoversPage(after, Page(t.address));
      }
    } else {
      assert slots[k := t] == slots;
    }
  }

  /** What becomes of a slot: a pointer that is still swapped is put back unless its page cannot be opened,
      and the page counts as restored exactly if its last protection change succeeds. */
  function Settled(s: HookSlot, f: RestoreFault): HookSlot {
    if !Pending(s) then s else s.(active := s.active && !f.patch.opens, protectionRestored := f.page)
  }

  lemma RestoreOneSettles(o: Process, p: Process, s: HookSlot, f: RestoreFault)
    requires Mapped(p, s.address) && SlotIsTrue(o, p, s)
    ensures RestoreOne(p, s, f).1 == Settled(s, f)
  {
  }

  // Installing

  datatype Installation = Installation(process: Process, slots: seq<HookSlot>, complete: bool)

  /** A slot is kept if its pointer was swapped or its page was left open. */
  function InstallOne(s: Installation, i: Import, f: PatchFault): Installation
    requires Mapped(s.process, i.address)
  {
    var (q, outcome) := PatchSlot(s.process, i.address, i.original, i.replacement, f);
    var keep := outcome.originalProtection.Some? && (outcome.swapped || !outcome.protectionRestored);
    Installation(q,
      if keep then
        s.slots + [HookSlot(i.address, i.original, i.replacement, outcome.originalProtection.value, outcome.swapped,
            outcome.protectionRestored)]
      else s.slots,
      outcome.swapped && outcome.protectionRestored)
  }

  /** The imports of a scan: each names a pointer as it is, and a hook that is not the function itself. */
  ghost predicate ScanOf(p: Process, imports: seq<Import>) {
    forall i :: 0 <= i < |imports| ==>
      Mapped(p, imports[i].address) && imports[i].original == p.pointers[imports[i].address]
      && imports[i].replacement != imports[i].original
  }

  ghost predicate Hooked(p: Process, i: Import) {
    i.address in p.pointers && p.pointers[i.address] == i.replacement
  }

  ghost predicate AllHooked(p: Process, imports: seq<Import>) {
    forall i :: 0 <= i < |imports| ==> Hooked(p, imports[i])
  }

  /** An installation so far: everything owned, and while it is complete, every import up to `n` hooked. */
  ghost predicate Installed(o: Process, imports: seq<Import>, n: nat, s: Installation) {
    && n <= |imports| && Owns(o, s.process, s.slots)
    && (s.complete ==>
          && |s.slots| == n && s.process.protections == o.protections
          && (forall k :: 0 <= k < n ==> s.slots[k].active && s.slots[k].protectionRestored)
          && (forall k :: 0 <= k < n ==> s.slots[k].address == imports[k].address)
          && (forall k :: 0 <= k < n ==> s.slots[k].replacement == imports[k].replacement))
  }

  lemma InstallOneOwns(o: Process, imports: seq<Import>, n: nat, s: Installation, f: PatchFault)
    requires n < |imports| && ScanOf(o, imports) && Installed(o, imports, n, s) && s.complete
    ensures Mapped(s.process, imports[n].address) && Installed(o, imports, n + 1, InstallOne(s, imports[n], f))
  {
    var i := imports[n];
    var a := i.address;
    assert Mapped(o, a);
    var t := InstallOne(s, i, f);
    if t.slots == s.slots {
      assert t.process == s.process;
    } else {
      var added := t.slots[|s.slots|];
      assert SlotIsTrue(o, t.process, added);
      SlotAdded(o, s, t, added);
    }
  }

  lemma SlotAdded(o: Process, s: Installation, t: Installation, added: HookSlot)
    requires Owns(o, s.process, s.slots) && t.slots == s.slots + [added] && SlotIsTrue(o, t.process, added)
    requires Mapped(s.process, added.address)
    requires s.process.protections == o.protections
    requires if added.active then s.process.pointers[added.address] == added.original
                                  && t.process.pointers == s.process.pointers[added.address := added.replacement]
             else t.process.pointers == s.process.pointers
    requires t.process.protections.Keys == o.protections.Keys
    requires forall g | g in o.protections ::
               t.process.protections[g] == o.protections[g] || (g == Page(added.address) && !added.protectionRestored)
    ensures Owns(o, t.process, t.slots)
  {
    var n := |s.slots|;
    assert t.slots[n] == added && forall k :: 0 <= k < n ==> t.slots[k] == s.slots[k];
    forall a | CoversPointer(s.slots, a) ensures CoversPointer(t.slots, a) {
      var k :| 0 <= k < n && s.slots[k].address == a && s.slots[k].active;
      assert t.slots[k].address == a && t.slots[k].active;
    }
    assert added.active ==> CoversPointer(t.slots, added.address);
    assert !added.protectionRestored ==> CoversPage(t.slots, Page(added.address));
    forall k | 0 <= k < n ensures SlotIsTrue(o, t.process, t.slots[k])
        && (added.active && t.slots[k].active ==> t.slots[k].address != added.address) {
      assert SlotIsTrue(o, s.process, s.slots[k]);
    }
  }

  /** No earlier import is the same pointer. */
  predicate Fresh(imports: seq<Import>, k: nat)
    requires k < |imports|
  {
    forall j :: 0 <= j < k ==> imports[j].address != imports[k].address
  }

  /** The page of an import can be opened, and no fault is injected before it. */
  predicate Opens(imports: seq<Import>, k: nat, failAfter: Option<nat>, faults: nat -> PatchFault)
    requires k < |imports|
  {
    failAfter != Some(k) && imports[k].address % 8 == 0 && faults(k).opens
  }

  /** Nothing stands in the way of hooking one import after the earlier ones. */
  predicate Hooks(imports: seq<Import>, k: nat, failAfter: Option<nat>, faults: nat -> PatchFault)
    requires k < |imports|
  {
    Opens(imports, k, failAfter, faults) && faults(k).closes && Fresh(imports, k)
  }

  /** Nothing stands in the way of hooking the first `n` imports. */
  ghost predicate CanInstall(imports: seq<Import>, n: nat, failAfter: Option<nat>, faults: nat -> PatchFault) {
    forall k :: 0 <= k < n && k < |imports| ==> Hooks(imports, k, failAfter, faults)
  }

  /** How many imports are hooked, counting on from the first `k`, before one fails. */
  function HookedFrom(imports: seq<Import>, k: nat, failAfter: Option<nat>, faults: nat -> PatchFault): (n: nat)
    requires k <= |imports|
    ensures k <= n <= |imports|
    decreases |imports| - k
  {
    if k == |imports| || !Hooks(imports, k, failAfter, faults) then k
    else HookedFrom(imports, k + 1, failAfter, faults)
  }

  function HookedCount(imports: seq<Import>, failAfter: Option<nat>, faults: nat -> PatchFault): (n: nat)
    ensures n <= |imports|
  {
    HookedFrom(imports, 0, failAfter, faults)
  }

  lemma {:induction false} HookedFromIs(imports: seq<Import>, k: nat, n: nat, failAfter: Option<nat>,
      faults: nat -> PatchFault)
    requires k <= n <= |imports| && CanInstall(imports, n, failAfter, faults)
    requires n == |imports| || !Hooks(imports, n, failAfter, faults)
    ensures HookedFrom(imports, k, failAfter, faults) == n
    decreases n - k
  {
    if k < n {
      HookedFromIs(imports, k + 1, n, failAfter, faults);
    }
  }

  lemma {:induction false} HookedFromHooks(imports: seq<Import>, k: nat, failAfter: Option<nat>,
      faults: nat -> PatchFault)
    requires k <= |imports| && CanInstall(imports, k, failAfter, faults)
    ensures var n := HookedFrom(imports, k, failAfter, faults);
            CanInstall(imports, n, failAfter, faults) && (n == |imports| || !Hooks(imports, n, failAfter, faults))
    decreases |imports| - k
  {
    if k < |imports| && Hooks(imports, k, failAfter, faults) {
      HookedFromHooks(imports, k + 1, failAfter, faults);
    }
  }

  /** The record of an import, as the process was before. */
  function SlotFor(o: Process, i: Import, active: bool, restored: bool): HookSlot
    requires Mapped(o, i.address)
  {
    HookSlot(i.address, i.original, i.replacement, o.protections[Page(i.address)], active, restored)
  }

  ghost function HookedSlots(o: Process, imports: seq<Import>, n: nat): (slots: seq<HookSlot>)
    requires n <= |imports| && ScanOf(o, imports)
    ensures |slots| == n
  {
    seq(n, k requires 0 <= k < n => SlotFor(o, imports[k], true, true))
  }

  /** Whether the import that failed leaves a slot behind: its page opened, and it was swapped or stayed open. */
  predicate LeavesASlot(imports: seq<Import>, n: nat, failAfter: Option<nat>, faults: nat -> PatchFault)
    requires n <= |imports|
  {
    n < |imports| && Opens(imports, n, failAfter, faults) && (Fresh(imports, n) || !faults(n).closes)
  }

  ghost function Leftover(o: Process, imports: seq<Import>, n: nat, failAfter: Option<nat>,
      faults: nat -> PatchFault): seq<HookSlot>
    requires n <= |imports| && ScanOf(o, imports)
  {
    if LeavesASlot(imports, n, failAfter, faults) then [SlotFor(o, imports[n], Fresh(imports, n), faults(n).closes)]
    else []
  }

  /** The slots an installation reaches: one for every import hooked, and what the failing one leaves behind. */
  ghost function ReachedSlots(o: Process, imports: seq<Import>, failAfter: Option<nat>,
      faults: nat -> PatchFault): seq<HookSlot>
    requires ScanOf(o, imports)
  {
    var n := HookedCount(imports, failAfter, faults);
    HookedSlots(o, imports, n) + Leftover(o, imports, n, failAfter, faults)
  }

  lemma ReachedWhenStopped(o: Process, imports: seq<Import>, n: nat, failAfter: Option<nat>, faults: nat -> PatchFault)
    requires n <= |imports| && ScanOf(o, imports) && CanInstall(imports, n, failAfter, faults)
    requires n == |imports| || !Hooks(imports, n, failAfter, faults)
    ensures ReachedSlots(o, imports, failAfter, faults)
            == HookedSlots(o, imports, n) + Leftover(o, imports, n, failAfter, faults)
  {
    HookedFromIs(imports, 0, n, failAfter, faults);
  }

  lemma OneMoreHooked(o: Process, imports: seq<Import>, n: nat)
    requires n < |imports| && ScanOf(o, imports)
    ensures Mapped(o, imports[n].address)
    ensures HookedSlots(o, imports, n) + [SlotFor(o, imports[n], true, true)] == HookedSlots(o, imports, n + 1)
  {
  }

  /** A pointer is as it was exactly if no import hooked so far is the same. */
  lemma FreshPointersAreOriginal(o: Process, imports: seq<Import>, n: nat, s: Installation)
    requires n < |imports| && ScanOf(o, imports) && Installed(o, imports, n, s) && s.complete
    ensures Mapped(s.process, imports[n].address)
    ensures s.process.pointers[imports[n].address] == imports[n].original <==> Fresh(imports, n)
  {
    var a := imports[n].address;
    assert Mapped(o, a);
    if !Fresh(imports, n) {
      var j :| 0 <= j < n && imports[j].address == a;
      assert SlotIsTrue(o, s.process, s.slots[j]);
    }
  }

  /** What patching one import adds to the slots, and when it succeeds. */
  lemma InstallOneSucceeds(o: Process, imports: seq<Import>, n: nat, s: Installation, failAfter: Option<nat>,
      faults: nat -> PatchFault)
    requires n < |imports| && ScanOf(o, imports) && Installed(o, imports, n, s) && s.complete && failAfter != Some(n)
    ensures Mapped(s.process, imports[n].address)
    ensures var t := InstallOne(s, imports[n], faults(n));
            && (t.complete <==> Hooks(imports, n, failAfter, faults))
            && t.slots == s.slots + Leftover(o, imports, n, failAfter, faults)
  {
    FreshPointersAreOriginal(o, imports, n, s);
    assert Mapped(o, imports[n].address);
  }

  /** A timer function of the system, and the hook that is to take its place. */
  datatype TimerApi = TimerApi(original: nat, replacement: nat)

  predicate HasHook(slots: seq<HookSlot>, replacement: nat) {
    exists k :: 0 <= k < |slots| && slots[k].replacement == replacement
  }

  /** Every hook has an active slot on a closed page, and no slot is in any other state. */
  predicate FullyInstalled(slots: seq<HookSlot>, apis: seq<TimerApi>) {
    && slots != [] && (forall k :: 0 <= k < |slots| ==> slots[k].active && slots[k].protectionRestored)
    && (forall r :: 0 <= r < |apis| ==> HasHook(slots, apis[r].replacement))
  }

  predicate CoversAll(imports: seq<Import>, apis: seq<TimerApi>) {
    forall r :: 0 <= r < |apis| ==>
      exists i :: 0 <= i < |imports| && imports[i].original == apis[r].original
          && imports[i].replacement == apis[r].replacement
  }

  /** A record is what a rollback with these faults makes of these slots. */
  ghost predicate IsSettled(after: seq<HookSlot>, slots: seq<HookSlot>, faults: nat -> RestoreFault) {
    |after| == |slots| && forall k :: 0 <= k < |slots| ==> after[k] == Settled(slots[k], faults(k))
  }

  /** A rollback with these faults leaves nothing of these slots pending. */
  ghost predicate RestoresAll(slots: seq<HookSlot>, faults: nat -> RestoreFault) {
    forall k :: 0 <= k < |slots| ==> !Pending(Settled(slots[k], faults(k)))
  }

  // A failure that passes for a success

  /** The first `m` imports have a hook for every timer function. */
  predicate CoversFirst(imports: seq<Import>, m: nat, apis: seq<TimerApi>) {
    forall r :: 0 <= r < |apis| ==> HasImport(imports, m, apis[r].replacement)
  }

  predicate HasImport(imports: seq<Import>, m: nat, replacement: nat) {
    exists k :: 0 <= k < m && k < |imports| && imports[k].replacement == replacement
  }

  predicate SameHook(a: Import, b: Import) {
    a.address == b.address && a.replacement == b.replacement
  }

  /** Import `i` is none of the first `m`. */
  ghost predicate IsSpare(imports: seq<Import>, m: nat, i: nat) {
    m <= i < |imports| && forall k :: 0 <= k < m ==> !SameHook(imports[k], imports[i])
  }

  /** The slots are for the first imports, one each. */
  ghost predicate NamesFirst(slots: seq<HookSlot>, imports: seq<Import>) {
    && |slots| <= |imports|
    && forall k :: 0 <= k < |slots| ==>
         slots[k].address == imports[k].address && slots[k].replacement == imports[k].replacement
  }

  /** How many slots an installation reaches. */
  function ReachedCount(imports: seq<Import>, failAfter: Option<nat>, faults: nat -> PatchFault): nat {
    var n := HookedCount(imports, failAfter, faults);
    if LeavesASlot(imports, n, failAfter, faults) then n + 1 else n
  }

  /** The calls whose failure passes for a success, told by their inputs: some import fails, the slots reached are
      all swapped and cover every timer function, the rollback can open none of their pages but close all of
      them, and some import is none of those reached. */
  ghost predicate LooksComplete(imports: seq<Import>, apis: seq<TimerApi>, failAfter: Option<nat>,
      patchFaults: nat -> PatchFault, rollbackFaults: nat -> RestoreFault) {
    var n := HookedCount(imports, failAfter, patchFaults);
    var m := ReachedCount(imports, failAfter, patchFaults);
    && n < |imports| && 0 < m && (n < m ==> Fresh(imports, n))
    && (forall k :: 0 <= k < m ==> !rollbackFaults(k).patch.opens && rollbackFaults(k).page)
    && CoversFirst(imports, m, apis) && exists i :: IsSpare(imports, m, i)
  }

  /** The slots reached, one by one. */
  lemma ReachedAt(o: Process, imports: seq<Import>, failAfter: Option<nat>, faults: nat -> PatchFault)
    requires ScanOf(o, imports)
    ensures var slots := ReachedSlots(o, imports, failAfter, faults);
            var n := HookedCount(imports, failAfter, faults);
            && |slots| == ReachedCount(imports, failAfter, faults) && NamesFirst(slots, imports)
            && (forall k :: 0 <= k < |slots| ==> (slots[k].active <==> k < n || Fresh(imports, n)))
  {
  }

  /** With all slots active, an import is hooked exactly if one of them is for it. */
  lemma HookedExactly(o: Process, p: Process, imports: seq<Import>, slots: seq<HookSlot>, i: nat)
    requires ScanOf(o, imports) && Owns(o, p, slots) && i < |imports|
    requires forall k :: 0 <= k < |slots| ==> slots[k].active
    ensures Hooked(p, imports[i])
            <==> exists k :: 0 <= k < |slots| && slots[k].address == imports[i].address
                             && slots[k].replacement == imports[i].replacement
  {
    var a := imports[i].address;
    assert Mapped(o, a);
    if Hooked(p, imports[i]) {
      var k :| 0 <= k < |slots| && slots[k].address == a && slots[k].active;
      assert SlotIsTrue(o, p, slots[k]);
    }
    if k :| 0 <= k < |slots| && slots[k].address == a && slots[k].replacement == imports[i].replacement {
      assert SlotIsTrue(o, p, slots[k]);
    }
  }

  /** The rollbacks, whatever called for them, whose remains look like a full installation, told by the slots there
      were and the faults: all slots swapped, and together a hook for every timer function; no page can be opened,
      and every page can be closed. */
  ghost predicate RemainsLookFull(slots: seq<HookSlot>, imports: seq<Import>, apis: seq<TimerApi>,
      faults: nat -> RestoreFault) {
    && slots != [] && CoversFirst(imports, |slots|, apis)
    && forall k :: 0 <= k < |slots| ==> slots[k].active && !faults(k).patch.opens && faults(k).page
  }

  lemma SettledLooksFull(slots: seq<HookSlot>, imports: seq<Import>, apis: seq<TimerApi>,
      faults: nat -> RestoreFault, after: seq<HookSlot>)
    requires NamesFirst(slots, imports) && IsSettled(after, slots, faults)
    ensures NamesFirst(after, imports)
    ensures FullyInstalled(after, apis) <==> RemainsLookFull(slots, imports, apis, faults)
    ensures RemainsLookFull(slots, imports, apis, faults) ==> !RestoresAll(slots, faults)
  {
    assert forall k :: 0 <= k < |slots| ==>
      (after[k].active && after[k].protectionRestored
       <==> slots[k].active && !faults(k).patch.opens && faults(k).page);
    forall r | 0 <= r < |apis|
      ensures HasHook(after, apis[r].replacement) <==> HasImport(imports, |after|, apis[r].replacement)
    {
      SameHooks(imports, after, apis[r].replacement);
    }
    if RemainsLookFull(slots, imports, apis, faults) {
      assert Pending(Settled(slots[0], faults(0)));
    }
  }

  /** After any rollback, in a failed enable or in a disable, the record passes for a full installation although
      some import is not hooked exactly if its remains look full and some import has no slot. */
  lemma RemainsPassExactly(o: Process, p: Process, imports: seq<Import>, apis: seq<TimerApi>, slots: seq<HookSlot>,
      faults: nat -> RestoreFault, after: seq<HookSlot>)
    requires ScanOf(o, imports) && Owns(o, p, after) && NamesFirst(slots, imports) && IsSettled(after, slots, faults)
    ensures FullyInstalled(after, apis) && !AllHooked(p, imports)
            <==> RemainsLookFull(slots, imports, apis, faults) && exists i :: IsSpare(imports, |slots|, i)
  {
    SettledLooksFull(slots, imports, apis, faults, after);
    if FullyInstalled(after, apis) {
      SparesAreNotHooked(o, p, imports, after);
    }
  }

  /** After a failed call the record passes for a full installation exactly if the slots reached were all swapped
      and cover every timer function, and the rollback could open none of their pages but close all of them. */
  lemma RollbackLooksInstalled(o: Process, imports: seq<Import>, apis: seq<TimerApi>, failAfter: Option<nat>,
      patchFaults: nat -> PatchFault, rollbackFaults: nat -> RestoreFault, after: seq<HookSlot>)
    requires ScanOf(o, imports)
    requires IsSettled(after, ReachedSlots(o, imports, failAfter, patchFaults), rollbackFaults)
    ensures var n := HookedCount(imports, failAfter, patchFaults);
            var m := ReachedCount(imports, failAfter, patchFaults);
            FullyInstalled(after, apis) <==>
              && 0 < m && (n < m ==> Fresh(imports, n))
              && (forall k :: 0 <= k < m ==> !rollbackFaults(k).patch.opens && rollbackFaults(k).page)
              && CoversFirst(imports, m, apis)
  {
    var slots := ReachedSlots(o, imports, failAfter, patchFaults);
    var n := HookedCount(imports, failAfter, patchFaults);
    ReachedAt(o, imports, failAfter, patchFaults);
    assert n < |slots| ==> (slots[n].active <==> Fresh(imports, n));
    SettledLooksFull(slots, imports, apis, rollbackFaults, after);
  }

  lemma SameHooks(imports: seq<Import>, slots: seq<HookSlot>, replacement: nat)
    requires |slots| <= |imports| && forall k :: 0 <= k < |slots| ==> slots[k].replacement == imports[k].replacement
    ensures HasHook(slots, replacement) <==> HasImport(imports, |slots|, replacement)
  {
    if k :| 0 <= k < |slots| && imports[k].replacement == replacement {
      assert slots[k].replacement == replacement;
    }
    if k :| 0 <= k < |slots| && slots[k].replacement == replacement {
      assert imports[k].replacement == replacement;
    }
  }

  /** With all slots active, and one for each of the first imports, the imports not hooked are those that are none
      of them. */
  lemma SparesAreNotHooked(o: Process, p: Process, imports: seq<Import>, slots: seq<HookSlot>)
    requires ScanOf(o, imports) && Owns(o, p, slots) && NamesFirst(slots, imports)
    requires forall k :: 0 <= k < |slots| ==> slots[k].active
    ensures forall i :: 0 <= i < |imports| ==> (Hooked(p, imports[i]) <==> !IsSpare(imports, |slots|, i))
  {
    forall i | 0 <= i < |imports| ensures Hooked(p, imports[i]) <==> !IsSpare(imports, |slots|, i) {
      HookedExactly(o, p, imports, slots, i);
      if k :| 0 <= k < |slots| && SameHook(imports[k], imports[i]) {
        assert slots[k].address == imports[i].address && slots[k].replacement == imports[i].replacement;
      }
      if k :| 0 <= k < |slots| && slots[k].address == imports[i].address
                               && slots[k].replacement == imports[i].replacement {
        assert SameHook(imports[k], imports[i]);
      }
    }
  }

  /** A record passes for a full installation, although some import is not hooked, exactly for those calls. */
  lemma PassesExactly(o: Process, p: Process, imports: seq<Import>, apis: seq<TimerApi>, failAfter: Option<nat>,
      patchFaults: nat -> PatchFault, rollbackFaults: nat -> RestoreFault, after: seq<HookSlot>)
    requires ScanOf(o, imports) && Owns(o, p, after) && !CanInstall(imports, |imports|, failAfter, patchFaults)
    requires IsSettled(after, ReachedSlots(o, imports, failAfter, patchFaults), rollbackFaults)
    ensures FullyInstalled(after, apis) && !AllHooked(p, imports)
            <==> LooksComplete(imports, apis, failAfter, patchFaults, rollbackFaults)
  {
    RollbackLooksInstalled(o, imports, apis, failAfter, patchFaults, rollbackFaults, after);
    HookedFromHooks(imports, 0, failAfter, patchFaults);
    ReachedAt(o, imports, failAfter, patchFaults);
    RemainsPassExactly(o, p, imports, apis, ReachedSlots(o, imports, failAfter, patchFaults), rollbackFaults, after);
    SettledLooksFull(ReachedSlots(o, imports, failAfter, patchFaults), imports, apis, rollbackFaults, after);
  }

  /** A record that passes although some import is not hooked takes imports with a spare. */
  lemma PassingNeedsASpare(o: Process, p: Process, imports: seq<Import>, apis: seq<TimerApi>, slots: seq<HookSlot>)
    requires ScanOf(o, imports) && Owns(o, p, slots) && NamesFirst(slots, imports)
    requires FullyInstalled(slots, apis) && !AllHooked(p, imports)
    ensures HasSpare(imports, apis)
  {
    SparesAreNotHooked(o, p, imports, slots);
    forall r | 0 <= r < |apis| ensures HasImport(imports, |slots|, apis[r].replacement) {
      SameHooks(imports, slots, apis[r].replacement);
    }
    forall k | 0 <= k < |slots| ensures imports[k].address % 8 == 0 && Fresh(imports, k) {
      assert SlotIsTrue(o, p, slots[k]);
      assert forall j :: 0 <= j < k ==> slots[j].address == imports[j].address;
    }
    var i :| 0 <= i < |imports| && !Hooked(p, imports[i]);
    assert IsSpare(imports, |slots|, i);
    assert CoveredWithSpare(imports, |slots|, apis);
  }

  /** What the caller can see before the call: a proper part of the imports, hookable one after the other,
      covers every timer function, and some import is none of them. */
  ghost predicate HasSpare(imports: seq<Import>, apis: seq<TimerApi>) {
    exists m: nat :: CoveredWithSpare(imports, m, apis)
  }

  ghost predicate CoveredWithSpare(imports: seq<Import>, m: nat, apis: seq<TimerApi>) {
    && 0 < m < |imports| && CoversFirst(imports, m, apis) && (exists i :: IsSpare(imports, m, i))
    && forall k :: 0 <= k < m ==> imports[k].address % 8 == 0 && Fresh(imports, k)
  }

  /** Some faults make a failure pass for a success if and only if the imports have such a spare; no injected
      fault is needed for it. */
  lemma FailuresPassExactlyWithASpare(imports: seq<Import>, apis: seq<TimerApi>)
    ensures (exists failAfter: Option<nat>, patchFaults: nat -> PatchFault, rollbackFaults: nat -> RestoreFault ::
               LooksComplete(imports, apis, failAfter, patchFaults, rollbackFaults))
            <==> HasSpare(imports, apis)
    ensures HasSpare(imports, apis) ==>
              exists patchFaults: nat -> PatchFault, rollbackFaults: nat -> RestoreFault ::
                LooksComplete(imports, apis, None, patchFaults, rollbackFaults)
  {
    forall failAfter: Option<nat>, patchFaults: nat -> PatchFault, rollbackFaults: nat -> RestoreFault |
      LooksComplete(imports, apis, failAfter, patchFaults, rollbackFaults)
      ensures HasSpare(imports, apis)
    {
      HookedFromHooks(imports, 0, failAfter, patchFaults);
      var m := ReachedCount(imports, failAfter, patchFaults);
      forall k | 0 <= k < m ensures imports[k].address % 8 == 0 && Fresh(imports, k) {
        assert k < HookedCount(imports, failAfter, patchFaults) ==> Hooks(imports, k, failAfter, patchFaults);
      }
      assert CoveredWithSpare(imports, m, apis);
    }
    if HasSpare(imports, apis) {
      var m: nat :| CoveredWithSpare(imports, m, apis);
      var patchFaults: nat -> PatchFault := k => PatchFault(k != m, true);
      var rollbackFaults: nat -> RestoreFault := k => RestoreFault(PatchFault(false, false), true);
      SpareLooksComplete(imports, m, apis, patchFaults, rollbackFaults);
    }
  }

  /** Such faults: the page of the import after the covering part does not open, and the rollback opens none. */
  lemma SpareLooksComplete(imports: seq<Import>, m: nat, apis: seq<TimerApi>, patchFaults: nat -> PatchFault,
      rollbackFaults: nat -> RestoreFault)
    requires CoveredWithSpare(imports, m, apis)
    requires forall k :: patchFaults(k) == PatchFault(k != m, true)
    requires forall k :: !rollbackFaults(k).patch.opens && rollbackFaults(k).page
    ensures LooksComplete(imports, apis, None, patchFaults, rollbackFaults)
  {
    HookedFromIs(imports, 0, m, None, patchFaults);
  }

  /** A failure at import `n` passes for a success if the imports before it cover every timer function and the
      rollback can open no page but close every page; and import `n` is not hooked then. */
  lemma StoppedLooksComplete(imports: seq<Import>, n: nat, apis: seq<TimerApi>, failAfter: Option<nat>,
      patchFaults: nat -> PatchFault, rollbackFaults: nat -> RestoreFault)
    requires forall j, k :: 0 <= j < k < |imports| ==> imports[j].address != imports[k].address
    requires 0 < n < |imports| && CanInstall(imports, n, failAfter, patchFaults)
    requires failAfter == Some(n) || !patchFaults(n).opens
    requires CoversFirst(imports, n, apis)
    requires forall k :: !rollbackFaults(k).patch.opens && rollbackFaults(k).page
    ensures HookedCount(imports, failAfter, patchFaults) == ReachedCount(imports, failAfter, patchFaults) == n
    ensures LooksComplete(imports, apis, failAfter, patchFaults, rollbackFaults)
  {
    HookedFromIs(imports, 0, n, failAfter, patchFaults);
    assert IsSpare(imports, n, n);
  }

  lemma StoppedIsNotHooked(o: Process, p: Process, imports: seq<Import>, n: nat, apis: seq<TimerApi>,
      failAfter: Option<nat>, patchFaults: nat -> PatchFault, rollbackFaults: nat -> RestoreFault,
      after: seq<HookSlot>)
    requires forall j, k :: 0 <= j < k < |imports| ==> imports[j].address != imports[k].address
    requires ScanOf(o, imports) && Owns(o, p, after) && FullyInstalled(after, apis) && n < |imports|
    requires IsSettled(after, ReachedSlots(o, imports, failAfter, patchFaults), rollbackFaults)
    requires ReachedCount(imports, failAfter, patchFaults) == n
    ensures !Hooked(p, imports[n])
  {
    ReachedAt(o, imports, failAfter, patchFaults);
    HookedExactly(o, p, imports, after, n);
  }

  /** The imports of one pointer: one for every timer function whose address it holds. */
  function ScannedAt(address: nat, pointer: nat, apis: seq<TimerApi>): seq<Import> {
    if apis == [] then []
    else
      var api := apis[|apis| - 1];
      ScannedAt(address, pointer, apis[..|apis| - 1])
      + if pointer == api.original then [Import(address, api.original, api.replacement)] else []
  }

  function Scanned(p: Process, table: seq<nat>, apis: seq<TimerApi>): seq<Import>
    requires forall i :: 0 <= i < |table| ==> Mapped(p, table[i])
  {
    if table == [] then []
    else
      var a := table[|table| - 1];
      assert Mapped(p, a);
      Scanned(p, table[..|table| - 1], apis) + ScannedAt(a, p.pointers[a], apis)
  }

  lemma {:induction false} ScannedAtIsScan(p: Process, address: nat, apis: seq<TimerApi>)
    requires Mapped(p, address) && forall r :: 0 <= r < |apis| ==> apis[r].original != apis[r].replacement
    ensures ScanOf(p, ScannedAt(address, p.pointers[address], apis))
    ensures forall r :: 0 <= r < |apis| && p.pointers[address] == apis[r].original ==>
              Import(address, apis[r].original, apis[r].replacement) in ScannedAt(address, p.pointers[address], apis)
  {
    if apis != [] {
      ScannedAtIsScan(p, address, apis[..|apis| - 1]);
    }
  }

  /** The scan finds every pointer to a timer function, and nothing that is not one. */
  lemma {:induction false} ScannedIsScan(p: Process, table: seq<nat>, apis: seq<TimerApi>)
    requires forall i :: 0 <= i < |table| ==> Mapped(p, table[i])
    requires forall r :: 0 <= r < |apis| ==> apis[r].original != apis[r].replacement
    ensures ScanOf(p, Scanned(p, table, apis))
    ensures forall i, r :: 0 <= i < |table| && 0 <= r < |apis| && p.pointers[table[i]] == apis[r].original ==>
              Import(table[i], apis[r].original, apis[r].replacement) in Scanned(p, table, apis)
  {
    if table != [] {
      var n := |table| - 1;
      assert Mapped(p, table[n]);
      ScannedIsScan(p, table[..n], apis);
      ScannedAtIsScan(p, table[n], apis);
    }
  }

  /** Every pointer of the table that led to a timer function leads to its hook. */
  ghost predicate HooksTheTable(o: Process, table: seq<nat>, apis: seq<TimerApi>, p: Process) {
    forall i, r :: 0 <= i < |table| && 0 <= r < |apis| && table[i] in o.pointers
                   && o.pointers[table[i]] == apis[r].original ==>
      table[i] in p.pointers && p.pointers[table[i]] == apis[r].replacement
  }

  lemma HookedTable(o: Process, table: seq<nat>, apis: seq<TimerApi>, p: Process)
    requires forall i :: 0 <= i < |table| ==> Mapped(o, table[i])
    requires forall r :: 0 <= r < |apis| ==> apis[r].original != apis[r].replacement
    requires AllHooked(p, Scanned(o, table, apis))
    ensures HooksTheTable(o, table, apis, p)
  {
    ScannedIsScan(o, table, apis);
    var found := Scanned(o, table, apis);
    forall i, r | 0 <= i < |table| && 0 <= r < |apis| && o.pointers[table[i]] == apis[r].original
      ensures table[i] in p.pointers && p.pointers[table[i]] == apis[r].replacement
    {
      var wanted := Import(table[i], apis[r].original, apis[r].replacement);
      assert wanted in found;
      var k :| 0 <= k < |found| && found[k] == wanted;
      assert Hooked(p, found[k]);
    }
  }

  lemma InstalledIsFullyInstalled(o: Process, imports: seq<Import>, s: Installation, apis: seq<TimerApi>)
    requires Installed(o, imports, |imports|, s) && s.complete && CoversAll(imports, apis) && apis != []
    ensures FullyInstalled(s.slots, apis)
    ensures AllHooked(s.process, imports)
    ensures s.process.protections == o.protections
  {
    var api := apis[0];
    var first :| 0 <= first < |imports| && imports[first].original == api.original
        && imports[first].replacement == api.replacement;
    forall r | 0 <= r < |apis| ensures HasHook(s.slots, apis[r].replacement) {
      var i :| 0 <= i < |imports| && imports[i].original == apis[r].original
          && imports[i].replacement == apis[r].replacement;
      assert s.slots[i].replacement == apis[r].replacement;
    }
    forall i | 0 <= i < |imports| ensures Hooked(s.process, imports[i]) {
      assert SlotIsTrue(o, s.process, s.slots[i]);
    }
  }

  /** The locked hook record, with the flags that go with it. `original` is the process before any hook. */
  class TimerHooks {
    ghost const original: Process
    const importTable: seq<nat>
    const apis: seq<TimerApi>
    var process: Process
    var record: Option<seq<HookSlot>>
    var virtualReady: bool
    var modulePinned: bool
    var callbacks: nat

    ghost predicate Valid()
      reads this
    {
      && Rest()
      && Owns(original, process, if record.Some? then record.value else [])
      && (virtualReady <==> record.Some?) && (record.Some? ==> modulePinned)
      && (record.Some? ==> NamesFirst(record.value, Found()) && CoversAll(Found(), apis))
    }

    /** The imports that every scan finds. */
    ghost function Found(): (imports: seq<Import>)
      requires Rest()
      ensures ScanOf(original, imports)
    {
      ScannedIsScan(original, importTable, apis);
      Scanned(original, importTable, apis)
    }

    /** What never changes. */
    ghost predicate Rest() {
      && (forall i :: 0 <= i < |importTable| ==> Mapped(original, importTable[i]))
      && apis != [] && (forall r :: 0 <= r < |apis| ==> apis[r].original != apis[r].replacement)
    }

    constructor (process: Process, importTable: seq<nat>, apis: seq<TimerApi>)
      requires forall i :: 0 <= i < |importTable| ==> Mapped(process, importTable[i])
      requires apis != [] && forall r :: 0 <= r < |apis| ==> apis[r].original != apis[r].replacement
      ensures Valid() && this.process == original == process && record.None? && callbacks == 0
      ensures this.importTable == importTable && this.apis == apis
    {
      this.original, this.process, this.importTable, this.apis := process, process, importTable, apis;
      this.record, this.virtualReady, this.modulePinned, this.callbacks := None, false, false, 0;
    }

    /** An empty record means that nothing is left to restore. */
    lemma EmptyRecordMeansOriginal()
      requires Valid() && record.None?
      ensures process == original
    {
    }

    method Enter()
      requires Valid()
      modifies `callbacks
      ensures Valid() && callbacks == old(callbacks) + 1
    {
      callbacks := callbacks + 1;
    }

    method Leave()
      requires Valid() && 0 < callbacks
      modifies `callbacks
      ensures Valid() && callbacks == old(callbacks) - 1
    {
      callbacks := callbacks - 1;
    }

    /** The imports that still hold the address of a timer function, if every timer function has one. */
    method ScanImports() returns (scan: Option<seq<Import>>)
      requires Valid() && process == original
      ensures var found := Scanned(process, importTable, apis); scan == if CoversAll(found, apis)
          then Some(found) else None
    {
      var imports: seq<Import> := [];
      for i := 0 to |importTable|
        invariant imports == Scanned(process, importTable[..i], apis)
      {
        assert Mapped(process, importTable[i]) && importTable[..i + 1][..i] == importTable[..i];
        var more := ScanPointer(importTable[i], process.pointers[importTable[i]]);
        imports := imports + more;
      }
      assert importTable[..|importTable|] == importTable;
      scan := if CoversAll(imports, apis) then Some(imports) else None;
    }

    method ScanPointer(address: nat, pointer: nat) returns (imports: seq<Import>)
      ensures imports == ScannedAt(address, pointer, apis)
    {
      imports := [];
      for r := 0 to |apis|
        invariant imports == ScannedAt(address, pointer, apis[..r])
      {
        assert apis[..r + 1][..r] == apis[..r];
        if pointer == apis[r].original {
          imports := imports + [Import(address, apis[r].original, apis[r].replacement)];
        }
      }
      assert apis[..|apis|] == apis;
    }

    /** Every pending slot is tried once, pointers and pages separately. */
    method RestoreSlots(slots: seq<HookSlot>, faults: nat -> RestoreFault) returns (clean: bool, after: seq<HookSlot>)
      requires Owns(original, process, slots)
      modifies `process
      ensures Owns(original, process, after)
      ensures IsSettled(after, slots, faults)
      ensures clean <==> AllRestored(after)
    {
      clean, after := true, slots;
      for k := 0 to |slots|
        invariant |after| == |slots| && Owns(original, process, after)
        invariant forall j :: 0 <= j < k ==> after[j] == Settled(slots[j], faults(j))
        invariant forall j :: k <= j < |slots| ==> after[j] == slots[j]
        invariant clean <==> forall j :: 0 <= j < k ==> !Pending(after[j])
      {
        var f := faults(k);
        RestoreOneOwns(original, process, after, k, f);
        RestoreOneSettles(original, process, after[k], f);
        var (q, slot) := RestoreOne(process, after[k], f);
        process, after := q, after[k := slot];
        clean := clean && !Pending(slot);
      }
    }

    /** An installation after `k` imports: all of them hooked so far, or stopped at one of them. */
    ghost predicate Underway(imports: seq<Import>, k: nat, complete: bool, slots: seq<HookSlot>,
        failAfter: Option<nat>, faults: nat -> PatchFault)
      reads this
      requires k <= |imports| && ScanOf(original, imports)
    {
      && Installed(original, imports, k, Installation(process, slots, complete))
      && (complete <==> CanInstall(imports, k, failAfter, faults))
      && slots == (if complete then HookedSlots(original, imports, k)
                   else ReachedSlots(original, imports, failAfter, faults))
    }

    /** One import: the fault that is asked for comes before it is touched. */
    method InstallNext(imports: seq<Import>, k: nat, before: seq<HookSlot>, failAfter: Option<nat>,
                       faults: nat -> PatchFault)
      returns (complete: bool, slots: seq<HookSlot>)
      requires k < |imports| && ScanOf(original, imports) && Underway(imports, k, true, before, failAfter, faults)
      modifies `process
      ensures Underway(imports, k + 1, complete, slots, failAfter, faults)
    {
      if failAfter == Some(|before|) {
        ReachedWhenStopped(original, imports, k, failAfter, faults);
        return false, before;
      }
      ghost var s := Installation(process, before, true);
      InstallOneOwns(original, imports, k, s, faults(k));
      InstallOneSucceeds(original, imports, k, s, failAfter, faults);
      OneMoreHooked(original, imports, k);
      var t := InstallOne(Installation(process, before, true), imports[k], faults(k));
      process, slots, complete := t.process, t.slots, t.complete;
      if !complete {
        ReachedWhenStopped(original, imports, k, failAfter, faults);
      }
    }

    /** Hook the imports one after the other until one fails. */
    method InstallSlots(imports: seq<Import>, failAfter: Option<nat>, faults: nat -> PatchFault)
      returns (complete: bool, slots: seq<HookSlot>)
      requires process == original && ScanOf(process, imports)
      modifies `process
      ensures Owns(original, process, slots)
      ensures complete <==> CanInstall(imports, |imports|, failAfter, faults)
      ensures complete ==> Installed(original, imports, |imports|, Installation(process, slots, true))
      ensures slots == ReachedSlots(original, imports, failAfter, faults)
    {
      complete, slots := true, [];
      var k := 0;
      while k < |imports| && complete
        invariant k <= |imports| && Underway(imports, k, complete, slots, failAfter, faults)
      {
        complete, slots := InstallNext(imports, k, slots, failAfter, faults);
        k := k + 1;
      }
      if complete {
        ReachedWhenStopped(original, imports, k, failAfter, faults);
      }
    }

    /** The failing half of the transaction: what was reached is taken back, and kept on record where it cannot be. */
    method RollBack(slots: seq<HookSlot>, faults: nat -> RestoreFault)
      requires Owns(original, process, slots) && record.None? && virtualReady && modulePinned
      requires Rest() && NamesFirst(slots, Found()) && CoversAll(Found(), apis)
      modifies `process, `record, `virtualReady
      ensures Valid()
      ensures record.None? ==> process == original
      ensures record.None? <==> RestoresAll(slots, faults)
      ensures record.Some? ==> IsSettled(record.value, slots, faults)
    {
      var clean, after := RestoreSlots(slots, faults);
      if clean {
        NothingPendingIsOriginal(original, process, after);
        virtualReady := false;
      } else {
        assert NamesFirst(after, Found()) by {
          SettledLooksFull(slots, Found(), apis, faults, after);
        }
        record := Some(after);
      }
    }

    /** The other half: a complete installation goes on record. */
    method Keep(imports: seq<Import>, slots: seq<HookSlot>)
      requires Rest() && record.None? && virtualReady && modulePinned && imports == Found() && CoversAll(imports, apis)
      requires Installed(original, imports, |imports|, Installation(process, slots, true))
      modifies `record
      ensures Valid() && record == Some(slots) && FullyInstalled(slots, apis) && AllHooked(process, imports)
      ensures process.protections == original.protections
    {
      InstalledIsFullyInstalled(original, imports, Installation(process, slots, true), apis);
      record := Some(slots);
    }

    /** The transaction: a set of hooks that is not complete is taken back, as far as that can be done. */
    method InstallOrRollBack(imports: seq<Import>, failAfter: Option<nat>,
                             patchFaults: nat -> PatchFault, rollbackFaults: nat -> RestoreFault)
      returns (enabled: bool)
      requires Rest() && process == original && record.None? && modulePinned
      requires imports == Found() && CoversAll(imports, apis)
      modifies `process, `record, `virtualReady
      ensures Valid()
      ensures enabled <==> CanInstall(imports, |imports|, failAfter, patchFaults)
      ensures enabled ==>
                && record.Some? && FullyInstalled(record.value, apis) && process.protections == original.protections
                && AllHooked(process, imports)
      ensures !enabled ==> TakenBack(imports, failAfter, patchFaults, rollbackFaults)
      ensures LooksComplete(imports, apis, failAfter, patchFaults, rollbackFaults) ==> !enabled
    {
      virtualReady := true;
      var complete, slots := InstallSlots(imports, failAfter, patchFaults);
      if complete {
        HookedFromIs(imports, 0, |imports|, failAfter, patchFaults);
        Keep(imports, slots);
        return true;
      }
      TakeBack(imports, slots, failAfter, patchFaults, rollbackFaults);
      return false;
    }

    /** The slots that a failing installation reached are taken back. */
    method TakeBack(imports: seq<Import>, slots: seq<HookSlot>, ghost failAfter: Option<nat>,
                    ghost patchFaults: nat -> PatchFault, rollbackFaults: nat -> RestoreFault)
      requires Rest() && record.None? && virtualReady && modulePinned && imports == Found() && CoversAll(imports, apis)
      requires Owns(original, process, slots) && slots == ReachedSlots(original, imports, failAfter, patchFaults)
      requires !CanInstall(imports, |imports|, failAfter, patchFaults)
      modifies `process, `record, `virtualReady
      ensures Valid() && TakenBack(imports, failAfter, patchFaults, rollbackFaults)
    {
      assert NamesFirst(slots, imports) by {
        ReachedAt(original, imports, failAfter, patchFaults);
      }
      RollBack(slots, rollbackFaults);
      ClearsOrPasses(imports, failAfter, patchFaults, rollbackFaults);
    }

    /** After a failed installation: on record is what the rollback makes of the slots reached, unless it restores
        all of them; and it passes for complete with an import not hooked exactly for the inputs described. */
    ghost predicate TakenBack(imports: seq<Import>, failAfter: Option<nat>, patchFaults: nat -> PatchFault,
        rollbackFaults: nat -> RestoreFault)
      reads this
      requires ScanOf(original, imports)
    {
      var reached := ReachedSlots(original, imports, failAfter, patchFaults);
      && (record.None? <==> RestoresAll(reached, rollbackFaults)) && (record.None? ==> process == original)
      && (record.Some? ==> IsSettled(record.value, reached, rollbackFaults))
      && (PassesForComplete(imports) <==> LooksComplete(imports, apis, failAfter, patchFaults, rollbackFaults))
    }

    /** The record passes for a full installation although some import is not hooked. */
    ghost predicate PassesForComplete(imports: seq<Import>)
      reads this
    {
      record.Some? && FullyInstalled(record.value, apis) && !AllHooked(process, imports)
    }

    lemma ClearsOrPasses(imports: seq<Import>, failAfter: Option<nat>, patchFaults: nat -> PatchFault,
        rollbackFaults: nat -> RestoreFault)
      requires Valid() && ScanOf(original, imports) && !CanInstall(imports, |imports|, failAfter, patchFaults)
      requires var reached := ReachedSlots(original, imports, failAfter, patchFaults);
               && (record.None? <==> RestoresAll(reached, rollbackFaults))
               && (record.Some? ==> IsSettled(record.value, reached, rollbackFaults))
      ensures PassesForComplete(imports) <==> LooksComplete(imports, apis, failAfter, patchFaults, rollbackFaults)
    {
      ReachedAt(original, imports, failAfter, patchFaults);
      if LooksComplete(imports, apis, failAfter, patchFaults, rollbackFaults) {
        var reached := ReachedSlots(original, imports, failAfter, patchFaults);
        assert Pending(Settled(reached[0], rollbackFaults(0)));
      }
      if record.Some? {
        PassesExactly(original, process, imports, apis, failAfter, patchFaults, rollbackFaults, record.value);
      }
    }

    /** One such failure, by an injected fault or by a page that does not open at import `n`: the imports before it
        cover every timer function, and the rollback can open no page but close every page. Nothing is undone,
        import `n` is not hooked, and the record passes for complete. */
    method FailureThatLooksComplete(imports: seq<Import>, n: nat, failAfter: Option<nat>,
        patchFaults: nat -> PatchFault, rollbackFaults: nat -> RestoreFault)
      returns (enabled: bool)
      requires Valid() && process == original && record.None? && modulePinned
      requires imports == Found() && CoversAll(imports, apis)
      requires forall j, k :: 0 <= j < k < |imports| ==> imports[j].address != imports[k].address
      requires 0 < n < |imports| && CanInstall(imports, n, failAfter, patchFaults)
      requires failAfter == Some(n) || !patchFaults(n).opens
      requires CoversFirst(imports, n, apis)
      requires forall k :: !rollbackFaults(k).patch.opens && rollbackFaults(k).page
      modifies `process, `record, `virtualReady
      ensures Valid() && !enabled && record.Some? && FullyInstalled(record.value, apis) && !Hooked(process, imports[n])
    {
      StoppedLooksComplete(imports, n, apis, failAfter, patchFaults, rollbackFaults);
      enabled := InstallOrRollBack(imports, failAfter, patchFaults, rollbackFaults);
      StoppedIsNotHooked(original, process, imports, n, apis, failAfter, patchFaults, rollbackFaults, record.value);
    }

    /** Enabling from an empty record, with the gate open. */
    method EnableFromEmpty(prerequisites: bool, pins: bool, failAfter: Option<nat>,
                           patchFaults: nat -> PatchFault, rollbackFaults: nat -> RestoreFault)
      returns (enabled: bool)
      requires Valid() && record.None?
      modifies `process, `record, `virtualReady, `modulePinned
      ensures Valid()
      ensures !prerequisites ==> process == old(process) && record == old(record)
      ensures var armed := prerequisites && (old(modulePinned) || pins) && CoversAll(Found(), apis);
              && (enabled <==> armed && CanInstall(Found(), |Found()|, failAfter, patchFaults))
              && (armed && !enabled ==> TakenBack(Found(), failAfter, patchFaults, rollbackFaults))
              && (!armed ==> process == original && record.None?)
              && (!enabled && PassesForComplete(Found())
                  <==> armed && LooksComplete(Found(), apis, failAfter, patchFaults, rollbackFaults))
      ensures enabled ==>
                && record.Some? && FullyInstalled(record.value, apis) && process.protections == original.protections
                && AllHooked(process, Found())
    {
      EmptyRecordMeansOriginal();
      var scan := ScanImports();
      if scan.None? || !prerequisites || !(modulePinned || pins) {
        return false;
      }
      modulePinned := true;
      enabled := InstallOrRollBack(scan.value, failAfter, patchFaults, rollbackFaults);
    }

    /** Enabling: all hooks or none, except for what the rollback could not undo and keeps on record. */
    method Enable(gateOpen: bool, prerequisites: bool, pins: bool, failAfter: Option<nat>,
                  patchFaults: nat -> PatchFault, rollbackFaults: nat -> RestoreFault)
      returns (enabled: bool)
      requires Valid()
      modifies `process, `record, `virtualReady, `modulePinned
      ensures Valid()
      ensures !gateOpen || !prerequisites || old(record.Some?) ==> process == old(process) && record == old(record)
      ensures enabled ==> gateOpen && record.Some? && FullyInstalled(record.value, apis)
      ensures gateOpen && old(record.Some?) ==> (enabled <==> FullyInstalled(record.value, apis))
      ensures enabled && !AllHooked(process, Found()) <==> gateOpen && old(PassesForComplete(Found()))
      ensures old(record.None?) ==>
                var armed := gateOpen && prerequisites && (old(modulePinned) || pins) && CoversAll(Found(), apis);
                && (enabled <==> armed && CanInstall(Found(), |Found()|, failAfter, patchFaults))
                && (armed && !enabled ==> TakenBack(Found(), failAfter, patchFaults, rollbackFaults))
                && (!armed ==> process == original && record.None?)
                && (!enabled && PassesForComplete(Found())
                    <==> armed && LooksComplete(Found(), apis, failAfter, patchFaults, rollbackFaults))
      ensures old(record.None?) && enabled ==>
                process.protections == original.protections && HooksTheTable(original, importTable, apis, process)
      ensures !enabled && record.None? ==> process == original
    {
      if !gateOpen {
        if record.None? {
          EmptyRecordMeansOriginal();
        }
        return false;
      }
      if record.Some? {
        return FullyInstalled(record.value, apis);
      }
      enabled := EnableFromEmpty(prerequisites, pins, failAfter, patchFaults, rollbackFaults);
      if enabled {
        HookedTable(original, importTable, apis, process);
      }
    }

    /** The disables whose rollback leaves a record that passes for complete with an import not hooked. */
    ghost predicate LeavesAPass(before: seq<HookSlot>, faults: nat -> RestoreFault)
      requires Rest()
    {
      RemainsLookFull(before, Found(), apis, faults) && exists i :: IsSpare(Found(), |before|, i)
    }

    lemma RestoredRecordPasses(before: seq<HookSlot>, faults: nat -> RestoreFault)
      requires Rest() && record.Some? && Owns(original, process, record.value)
      requires NamesFirst(before, Found()) && IsSettled(record.value, before, faults)
      ensures NamesFirst(record.value, Found())
      ensures PassesForComplete(Found()) <==> LeavesAPass(before, faults)
      ensures LeavesAPass(before, faults) ==> !RestoresAll(before, faults)
    {
      SettledLooksFull(before, Found(), apis, faults, record.value);
      RemainsPassExactly(original, process, Found(), apis, before, faults, record.value);
    }

    /** Restore what is on record, and keep on record what becomes of it. */
    method RestoreRecord(faults: nat -> RestoreFault) returns (clean: bool)
      requires Valid() && record.Some?
      modifies `process, `record
      ensures Valid() && record.Some? && IsSettled(record.value, old(record.value), faults)
      ensures clean <==> AllRestored(record.value)
      ensures PassesForComplete(Found()) <==> LeavesAPass(old(record.value), faults)
      ensures clean ==> !LeavesAPass(old(record.value), faults)
    {
      ghost var before := record.value;
      var after;
      clean, after := RestoreSlots(record.value, faults);
      record := Some(after);
      RestoredRecordPasses(before, faults);
    }

    /** Disabling: only when everything is restored and no callback is running is the record given up. */
    method Disable(faults: nat -> RestoreFault, idle: bool) returns (disabled: bool)
      requires Valid() && (idle ==> callbacks == 0)
      modifies `process, `record, `virtualReady
      ensures Valid()
      ensures disabled <==> record.None?
      ensures disabled ==> process == original
      ensures disabled && old(record.Some?) ==> callbacks == 0
      ensures old(record.Some?) ==>
                (disabled <==> idle && RestoresAll(old(record.value), faults))
      ensures old(record.Some?) && !disabled ==> IsSettled(record.value, old(record.value), faults)
      ensures PassesForComplete(Found()) <==> old(record.Some?) && LeavesAPass(old(record.value), faults)
    {
      if record.None? {
        EmptyRecordMeansOriginal();
        return true;
      }
      var clean := RestoreRecord(faults);
      if !clean || !idle {
        return false;
      }
      NothingPendingIsOriginal(original, process, record.value);
      record, virtualReady := None, false;
      return true;
    }

    /** A record can pass for complete with an import not hooked only if the imports have a spare. */
    lemma PassesOnlyWithASpare()
      requires Valid()
      ensures PassesForComplete(Found()) ==> CoversAll(Found(), apis) && HasSpare(Found(), apis)
    {
      if PassesForComplete(Found()) {
        PassingNeedsASpare(original, process, Found(), apis, record.value);
      }
    }

    /** Any run of the operations, with any faults, leaves a record that accounts for every change. Only if the
        imports have a spare does the record pass for complete with an import not hooked, or has any enable of the
        run reported success with one (`misled`). */
    method Run(ops: seq<Op>) returns (ghost misled: bool)
      requires Valid()
      modifies this
      ensures Valid() && (record.None? ==> process == original)
      ensures misled || PassesForComplete(Found()) ==> CoversAll(Found(), apis) && HasSpare(Found(), apis)
    {
      misled := false;
      for i := 0 to |ops|
        invariant Valid()
        invariant misled ==> CoversAll(Found(), apis) && HasSpare(Found(), apis)
      {
        match ops[i]
        case EnableOp(gate, prerequisites, pins, failAfter, faults, rollback) =>
          PassesOnlyWithASpare();
          var enabled := Enable(gate, prerequisites, pins, failAfter, faults, rollback);
          misled := misled || (enabled && !AllHooked(process, Found()));
        case DisableOp(faults, idle) =>
          var _ := Disable(faults, idle && callbacks == 0);
        case EnterOp => Enter();
        case LeaveOp =>
          if 0 < callbacks {
            Leave();
          }
      }
      if record.None? {
        EmptyRecordMeansOriginal();
      }
      PassesOnlyWithASpare();
    }
  }

  datatype Op =
    | EnableOp(gateOpen: bool, prerequisites: bool, pins: bool, failAfter: Option<nat>,
               patchFaults: nat -> PatchFault, rollbackFaults: nat -> RestoreFault)
    | DisableOp(restoreFaults: nat -> RestoreFault, idle: bool)
    | EnterOp
    | LeaveOp
}
