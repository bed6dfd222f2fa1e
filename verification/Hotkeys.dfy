/** Hotkey bindings and the dispatcher that turns key events into speed actions. */
module Hotkeys {
  import opened Numbers
  import opened Config
  import opened Session
  import Controls

  type Key = x: nat | x < 0x1_0000

  datatype Modifiers = Modifiers(ctrl: bool, alt: bool, shift: bool)

  datatype KeyChord = KeyChord(key: Key, modifiers: Modifiers)

  datatype KeyEvent = KeyEvent(virtualKey: Key, modifiers: Modifiers, pressed: bool, repeat: bool)

  predicate Includes(m: Modifiers, expected: Modifiers) {
    && (!expected.ctrl || m.ctrl)
    && (!expected.alt || m.alt)
    && (!expected.shift || m.shift)
  }

  datatype HotAction =
    | IncreaseKey
    | DecreaseKey
    | ToggleKey
    | ResetKey
    | HoldKey(multiplier: F64, durationMs: U32)

  function ActionOf(a: HotAction): SpeedAction {
    match a
    case IncreaseKey => IncreaseSpeed
    case DecreaseKey => DecreaseSpeed
    case ToggleKey => ToggleSpeed
    case ResetKey => ResetSpeed
    case HoldKey(m, d) => HoldStart(m, d)
  }

  datatype Binding = Binding(chord: KeyChord, action: HotAction)

  /** A configured chord after its text has been parsed; `Malformed` stands for any parse error. */
  datatype ChordText = Parsed(chord: KeyChord) | Malformed

  datatype HoldHotkey = HoldHotkey(chord: ChordText, multiplier: F64, durationMs: U32)

  datatype SpeedHotkeyConfig = SpeedHotkeyConfig(
    increase: Option<ChordText>,
    decrease: Option<ChordText>,
    toggle: Option<ChordText>,
    reset: Option<ChordText>,
    hold: Option<HoldHotkey>)

  const F10: Key := 0x79
  const INSERT: Key := 0x2d

  /** The action bound to a chord; the first binding wins. */
  function Lookup(bindings: seq<Binding>, chord: KeyChord): Option<HotAction> {
    if bindings == [] then None
    else if bindings[0].chord == chord then Some(bindings[0].action)
    else Lookup(bindings[1..], chord)
  }

  lemma {:induction false} LookupFindsABinding(bindings: seq<Binding>, chord: KeyChord)
    ensures Lookup(bindings, chord).Some? ==> Binding(chord, Lookup(bindings, chord).value) in bindings
  {
    if bindings != [] {
      LookupFindsABinding(bindings[1..], chord);
    }
  }

  lemma {:induction false} LookupAfter(bindings: seq<Binding>, chord: KeyChord, i: nat)
    requires i <= |bindings| && forall j :: 0 <= j < i ==> bindings[j].chord != chord
    ensures Lookup(bindings, chord) == Lookup(bindings[i..], chord)
  {
    if i == 0 {
      assert bindings[0..] == bindings;
    } else {
      assert bindings[1..][i - 1..] == bindings[i..];
      LookupAfter(bindings[1..], chord, i - 1);
    }
  }

  ghost predicate HoldAllowed(h: HoldHotkey, s: SpeedSettings) {
    h.multiplier.Finite? && h.multiplier in s.steps && 1 <= h.durationMs <= 60_000
  }

  /** No chord is bound twice, and none that is reserved. */
  ghost predicate Unambiguous(bindings: seq<Binding>) {
    && (forall i, j :: 0 <= i < j < |bindings| ==> bindings[i].chord != bindings[j].chord)
    && (forall i :: 0 <= i < |bindings| ==> bindings[i].chord.key !in {F10, INSERT})
  }

  /** What compilation guarantees of its bindings: no chord is bound twice or reserved, at most one
      binding holds, and a hold is one the session accepts. */
  ghost predicate Compiled(bindings: seq<Binding>, s: SpeedSettings) {
    && Unambiguous(bindings)
    && (forall i, j :: 0 <= i < j < |bindings| ==> !(bindings[i].action.HoldKey? && bindings[j].action.HoldKey?))
    && (forall b | b in bindings && b.action.HoldKey? ::
          HoldAllowed(HoldHotkey(Parsed(b.chord), b.action.multiplier, b.action.durationMs), s))
  }

  type Request = (Option<ChordText>, HotAction)

  /** The plain requests of a configuration, in the order they are compiled. */
  function Requests(c: SpeedHotkeyConfig): seq<Request> {
    [(c.increase, IncreaseKey), (c.decrease, DecreaseKey), (c.toggle, ToggleKey), (c.reset, ResetKey)]
  }

  ghost predicate NoneMalformed(requests: seq<Request>) {
    forall i :: 0 <= i < |requests| ==> requests[i].0 != Some(Malformed)
  }

  /** The bindings a list of requests asks for, whether or not it compiles. */
  function Wanted(requests: seq<Request>): seq<Binding> {
    if requests == [] then []
    else
      var (raw, action) := requests[|requests| - 1];
      Wanted(requests[..|requests| - 1])
      + if raw.Some? && raw.value.Parsed? then [Binding(raw.value.chord, action)] else []
  }

  /** The bindings of a whole configuration: the hold comes last. */
  function AllWanted(c: SpeedHotkeyConfig): seq<Binding> {
    Wanted(Requests(c))
    + if c.hold.Some? && c.hold.value.chord.Parsed?
      then [Binding(c.hold.value.chord.chord, HoldKey(c.hold.value.multiplier, c.hold.value.durationMs))] else []
  }

  /** Exactly the configurations that compile. */
  ghost predicate Compilable(c: SpeedHotkeyConfig, s: SpeedSettings) {
    && NoneMalformed(Requests(c))
    && (c.hold.Some? ==> c.hold.value.chord.Parsed? && HoldAllowed(c.hold.value, s))
    && Compiled(AllWanted(c), s)
  }

  // The first error

  predicate Binds(bindings: seq<Binding>, chord: KeyChord) {
    exists i :: 0 <= i < |bindings| && bindings[i].chord == chord
  }

  /** Why a chord cannot be bound after these bindings, if it cannot. */
  function Refused(bindings: seq<Binding>, raw: ChordText): Option<HotkeyError> {
    if raw.Malformed? then Some(BadChord)
    else if raw.chord.key in {F10, INSERT} then Some(ReservedKey)
    else if Binds(bindings, raw.chord) then Some(DuplicateChord)
    else None
  }

  function FirstRefused(requests: seq<Request>): Option<HotkeyError> {
    if requests == [] then None
    else
      var init, raw := requests[..|requests| - 1], requests[|requests| - 1].0;
      if FirstRefused(init).Some? then FirstRefused(init)
      else if raw.Some? then Refused(Wanted(init), raw.value)
      else None
  }

  /** The error of a configuration: that of the first plain request refused, else that of the hold. */
  function CompileError(c: SpeedHotkeyConfig, s: SpeedSettings): Option<HotkeyError> {
    if FirstRefused(Requests(c)).Some? then FirstRefused(Requests(c))
    else if c.hold.None? then None
    else
      var hold := c.hold.value;
      if hold.multiplier.NonFinite? || hold.multiplier !in s.steps then Some(HoldNotAStep)
      else if !(1 <= hold.durationMs <= 60_000) then Some(HoldDuration)
      else Refused(Wanted(Requests(c)), hold.chord)
  }

  lemma UnambiguousAppend(bindings: seq<Binding>, b: Binding)
    ensures Unambiguous(bindings + [b])
            <==> Unambiguous(bindings) && b.chord.key !in {F10, INSERT} && !Binds(bindings, b.chord)
  {
    var after := bindings + [b];
    assert after[|bindings|] == b && forall i :: 0 <= i < |bindings| ==> after[i] == bindings[i];
  }

  /** The plain requests are refused nowhere exactly if they are all well-formed and clash nowhere. */
  lemma {:induction false} NoneRefused(requests: seq<Request>)
    ensures FirstRefused(requests).None? <==> Unambiguous(Wanted(requests)) && NoneMalformed(requests)
  {
    if requests != [] {
      var init, last := requests[..|requests| - 1], requests[|requests| - 1];
      NoneRefused(init);
      assert NoneMalformed(requests) <==> NoneMalformed(init) && last.0 != Some(Malformed) by {
        OneMoreMalformed(init, last);
        assert requests == init + [last];
      }
      if last.0.Some? && last.0.value.Parsed? {
        UnambiguousAppend(Wanted(init), Binding(last.0.value.chord, last.1));
      } else {
        assert Wanted(requests) == Wanted(init);
      }
    }
  }

  lemma OneMoreMalformed(requests: seq<Request>, last: Request)
    ensures NoneMalformed(requests + [last]) <==> NoneMalformed(requests) && last.0 != Some(Malformed)
  {
    var all := requests + [last];
    assert all[|requests|] == last && forall i :: 0 <= i < |requests| ==> all[i] == requests[i];
  }

  lemma {:induction false} FirstErrorStays(requests: seq<Request>, i: nat)
    requires i <= |requests| && FirstRefused(requests[..i]).Some?
    ensures FirstRefused(requests) == FirstRefused(requests[..i])
    decreases |requests|
  {
    if i < |requests| {
      var init := requests[..|requests| - 1];
      assert requests[..i] == init[..i];
      FirstErrorStays(init, i);
    } else {
      assert requests[..i] == requests;
    }
  }

  lemma {:induction false} WantedDoNotHold(requests: seq<Request>)
    requires forall i :: 0 <= i < |requests| ==> !requests[i].1.HoldKey?
    ensures forall i :: 0 <= i < |Wanted(requests)| ==> !Wanted(requests)[i].action.HoldKey?
  {
    if requests != [] {
      WantedDoNotHold(requests[..|requests| - 1]);
    }
  }

  /** A configuration has no first error exactly if it is one that compiles. */
  lemma NoErrorExactly(c: SpeedHotkeyConfig, s: SpeedSettings)
    ensures CompileError(c, s).None? <==> Compilable(c, s)
  {
    NoneRefused(Requests(c));
    WantedDoNotHold(Requests(c));
    var plain := Wanted(Requests(c));
    if c.hold.Some? && c.hold.value.chord.Parsed? {
      var last := Binding(c.hold.value.chord.chord, HoldKey(c.hold.value.multiplier, c.hold.value.durationMs));
      UnambiguousAppend(plain, last);
      assert AllWanted(c)[|plain|] == last;
    } else {
      assert AllWanted(c) == plain;
    }
  }

  // Compiling

  /** The chords seen so far are those bound so far. */
  ghost predicate AreSeen(bindings: seq<Binding>, seen: set<KeyChord>) {
    forall c :: c in seen <==> Binds(bindings, c)
  }

  method AddBinding(bindings: seq<Binding>, seen: set<KeyChord>, raw: ChordText, action: HotAction)
    returns (r: Result<(seq<Binding>, set<KeyChord>), HotkeyError>)
    requires AreSeen(bindings, seen)
    ensures r.Ok? ==>
              && Refused(bindings, raw).None? && raw.Parsed?
              && r.value.0 == bindings + [Binding(raw.chord, action)] && AreSeen(r.value.0, r.value.1)
    ensures r.Err? ==> Refused(bindings, raw) == Some(r.error)
  {
    if raw.Malformed? {
      return Err(BadChord);
    }
    if raw.chord.key == F10 || raw.chord.key == INSERT {
      return Err(ReservedKey);
    }
    if raw.chord in seen {
      return Err(DuplicateChord);
    }
    var after := bindings + [Binding(raw.chord, action)];
    OneMoreBound(bindings, Binding(raw.chord, action));
    return Ok((after, seen + {raw.chord}));
  }

  lemma OneMoreBound(bindings: seq<Binding>, b: Binding)
    ensures forall c :: Binds(bindings + [b], c) <==> Binds(bindings, c) || c == b.chord
  {
    var after := bindings + [b];
    assert after[|bindings|] == b && forall i :: 0 <= i < |bindings| ==> after[i] == bindings[i];
  }

  method CompilePlain(requests: seq<Request>) returns (r: Result<(seq<Binding>, set<KeyChord>), HotkeyError>)
    ensures r.Ok? ==>
              FirstRefused(requests).None? && r.value.0 == Wanted(requests) && AreSeen(r.value.0, r.value.1)
    ensures r.Err? ==> FirstRefused(requests) == Some(r.error)
  {
    var bindings: seq<Binding>, seen: set<KeyChord> := [], {};
    for i := 0 to |requests|
      invariant FirstRefused(requests[..i]).None? && bindings == Wanted(requests[..i]) && AreSeen(bindings, seen)
    {
      assert requests[..i + 1][..i] == requests[..i];
      var (raw, action) := requests[i];
      if raw.Some? {
        var added := AddBinding(bindings, seen, raw.value, action);
        if added.Err? {
          FirstErrorStays(requests, i + 1);
          return Err(added.error);
        }
        bindings, seen := added.value.0, added.value.1;
      }
    }
    assert requests[..|requests|] == requests;
    return Ok((bindings, seen));
  }

  /** Every configuration compiles to the bindings it asks for, or stops at its first error. */
  method Compile(config: SpeedHotkeyConfig, speed: SpeedSettings)
    returns (r: Result<seq<Binding>, HotkeyError>)
    ensures r.Ok? <==> Compilable(config, speed)
    ensures r.Ok? ==> r.value == AllWanted(config)
    ensures r.Err? ==> CompileError(config, speed) == Some(r.error)
  {
    NoErrorExactly(config, speed);
    var plain := CompilePlain(Requests(config));
    if plain.Err? {
      return Err(plain.error);
    }
    var (bindings, seen) := plain.value;
    if config.hold.Some? {
      var hold := config.hold.value;
      if hold.multiplier.NonFinite? || hold.multiplier !in speed.steps {
        return Err(HoldNotAStep);
      }
      if !(1 <= hold.durationMs <= 60_000) {
        return Err(HoldDuration);
      }
      var added := AddBinding(bindings, seen, hold.chord, HoldKey(hold.multiplier, hold.durationMs));
      if added.Err? {
        return Err(added.error);
      }
      bindings := added.value.0;
    }
    return Ok(bindings);
  }

  /** The action a compiled configuration gives to a chord. */
  function ActionFor(c: SpeedHotkeyConfig, chord: KeyChord): Option<SpeedAction> {
    var bound := Lookup(AllWanted(c), chord);
    if bound.Some? then Some(ActionOf(bound.value)) else None
  }

  lemma {:induction false} BoundOnce(bindings: seq<Binding>, i: nat)
    requires Unambiguous(bindings) && i < |bindings|
    ensures Lookup(bindings, bindings[i].chord) == Some(bindings[i].action)
  {
    if 0 < i {
      var rest := bindings[1..];
      assert forall j :: 0 <= j < |rest| ==> rest[j] == bindings[j + 1];
      BoundOnce(rest, i - 1);
    }
  }

  lemma {:induction false} WantedAreAsked(requests: seq<Request>, b: Binding)
    ensures b in Wanted(requests)
            <==> exists i :: 0 <= i < |requests| && requests[i] == (Some(Parsed(b.chord)), b.action)
  {
    if requests != [] {
      var n := |requests| - 1;
      WantedAreAsked(requests[..n], b);
      if i :| 0 <= i < |requests| && requests[i] == (Some(Parsed(b.chord)), b.action) {
        assert i < n ==> requests[..n][i] == requests[i];
      }
      if i :| 0 <= i < n && requests[..n][i] == (Some(Parsed(b.chord)), b.action) {
        assert requests[i] == (Some(Parsed(b.chord)), b.action);
      }
    }
  }

  /** In a configuration that compiles, each chord does what it is configured for, and no other chord does anything. */
  lemma ChordsDoWhatTheyAreFor(c: SpeedHotkeyConfig, s: SpeedSettings, chord: KeyChord)
    requires Compilable(c, s)
    ensures var raw, a := Some(Parsed(chord)), ActionFor(c, chord);
            && (a == Some(IncreaseSpeed) <==> c.increase == raw)
            && (a == Some(DecreaseSpeed) <==> c.decrease == raw)
            && (a == Some(ToggleSpeed) <==> c.toggle == raw)
            && (a == Some(ResetSpeed) <==> c.reset == raw)
            && (a.Some? && a.value.HoldStart? <==> c.hold.Some? && c.hold.value.chord == Parsed(chord))
            && (a.Some? && a.value.HoldStart? ==>
                  a.value == HoldStart(c.hold.value.multiplier, c.hold.value.durationMs))
  {
    var all := AllWanted(c);
    var requests := Requests(c);
    assert requests[0] == (c.increase, IncreaseKey) && requests[1] == (c.decrease, DecreaseKey);
    assert requests[2] == (c.toggle, ToggleKey) && requests[3] == (c.reset, ResetKey);
    forall i | 0 <= i < |requests| && requests[i].0 == Some(Parsed(chord))
      ensures Lookup(all, chord) == Some(requests[i].1)
    {
      WantedAreAsked(requests, Binding(chord, requests[i].1));
      AskedIsBound(all, Binding(chord, requests[i].1));
    }
    if c.hold.Some? && c.hold.value.chord == Parsed(chord) {
      AskedIsBound(all, Binding(chord, HoldKey(c.hold.value.multiplier, c.hold.value.durationMs)));
    }
    if Lookup(all, chord).Some? {
      LookupFindsABinding(all, chord);
      WantedAreAsked(requests, Binding(chord, Lookup(all, chord).value));
    }
  }

  lemma AskedIsBound(bindings: seq<Binding>, b: Binding)
    requires Unambiguous(bindings) && b in bindings
    ensures Lookup(bindings, b.chord) == Some(b.action)
  {
    var i :| 0 <= i < |bindings| && bindings[i] == b;
    BoundOnce(bindings, i);
  }

  /** Every action a compiled table can emit is accepted by a session with the same steps. */
  lemma CompiledActionsAreAccepted(bindings: seq<Binding>, s: SpeedSettings, c: Controls.Controls, chord: KeyChord)
    requires WellFormed(s) && Compiled(bindings, s) && c.steps == Values(s.steps)
    requires Lookup(bindings, chord).Some?
    ensures Refusal(c, ActionOf(Lookup(bindings, chord).value)).None?
  {
  }

  /** Whether an event ends a hold: its key came up, or a modifier of its chord is no longer down. */
  predicate Breaks(held: KeyChord, e: KeyEvent) {
    (!e.pressed && e.virtualKey == held.key) || !Includes(e.modifiers, held.modifiers)
  }

  class SpeedHotkeyDispatcher {
    const bindings: seq<Binding>
    var pressed: set<Key>
    var held: Option<KeyChord>
    var focused: bool

    constructor (bindings: seq<Binding>)
      ensures this.bindings == bindings && pressed == {} && held == None && !focused
    {
      this.bindings := bindings;
      pressed, held, focused := {}, None, false;
    }

    method OnFocusGained()
      modifies this
      ensures focused && held == old(held) && pressed == if old(focused) then old(pressed) else {}
    {
      if !focused {
        focused := true;
        pressed := {};
      }
    }

    method OnFocusLost() returns (action: SpeedAction)
      modifies this
      ensures !focused && pressed == {} && held == None && action == FocusLost
    {
      focused := false;
      pressed := {};
      held := None;
      action := FocusLost;
    }

    method OnKey(e: KeyEvent) returns (action: Option<SpeedAction>)
      modifies this
      ensures focused == old(focused)
      ensures !old(focused) ==> action == None && pressed == old(pressed) && held == old(held)
      ensures old(focused) && old(held).Some? && Breaks(old(held).value, e) ==>
                && action == Some(HoldRelease) && held == None
                && pressed == old(pressed) - {old(held).value.key} - (if e.pressed then {} else {e.virtualKey})
      ensures old(focused) && !(old(held).Some? && Breaks(old(held).value, e)) && !e.pressed ==>
                action == None && held == old(held) && pressed == old(pressed) - {e.virtualKey}
      ensures old(focused) && !(old(held).Some? && Breaks(old(held).value, e)) && e.pressed ==>
                if e.repeat || e.virtualKey in old(pressed) then
                  action == None && held == old(held) && pressed == old(pressed)
                else
                  var chord := KeyChord(e.virtualKey, e.modifiers);
                  var bound := Lookup(bindings, chord);
                  && pressed == old(pressed) + {e.virtualKey}
                  && action == (if bound.Some? then Some(ActionOf(bound.value)) else None)
                  && held == (if bound.Some? && bound.value.HoldKey? then Some(chord) else old(held))
    {
      if !focused {
        return None;
      }
      if held.Some? && ((!e.pressed && e.virtualKey == held.value.key)
          || !Includes(e.modifiers, held.value.modifiers)) {
        pressed := pressed - {held.value.key};
        held := None;
        if !e.pressed {
          pressed := pressed - {e.virtualKey};
        }
        return Some(HoldRelease);
      }
      if !e.pressed {
        pressed := pressed - {e.virtualKey};
        return None;
      }
      if e.repeat || e.virtualKey in pressed {
        return None;
      }
      pressed := pressed + {e.virtualKey};
      var chord := KeyChord(e.virtualKey, e.modifiers);
      for i := 0 to |bindings|
        invariant pressed == old(pressed) + {e.virtualKey} && held == old(held) && focused
        invariant forall j :: 0 <= j < i ==> bindings[j].chord != chord
      {
        LookupAfter(bindings, chord, i);
        if bindings[i].chord == chord {
          if bindings[i].action.HoldKey? {
            held := Some(chord);
          }
          return Some(ActionOf(bindings[i].action));
        }
      }
      LookupAfter(bindings, chord, |bindings|);
      return None;
    }
  }
}
