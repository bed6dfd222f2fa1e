/** The focused input pump, and the small edge machine it collapses to together with the dispatcher. */
module InputPump {
  import opened Numbers
  import opened Session
  import opened Hotkeys

  const CONTROL: Key := 0x11
  const ALT: Key := 0x12
  const SHIFT: Key := 0x10

  datatype InputSnapshot = InputSnapshot(focused: bool, downKeys: seq<Key>)

  /** The snapshot of a host without focus. */
  const UNFOCUSED := InputSnapshot(false, [])

  function ModifiersOf(down: set<Key>): Modifiers {
    Modifiers(CONTROL in down, ALT in down, SHIFT in down)
  }

  // Keys in ascending order

  ghost predicate Ascends(keys: seq<Key>) {
    forall i, j :: 0 <= i < j < |keys| ==> keys[i] < keys[j]
  }

  lemma {:induction false} Least(keys: set<Key>) returns (least: Key)
    requires keys != {}
    ensures least in keys && forall other :: other in keys ==> least <= other
  {
    least :| least in keys;
    var rest := keys - {least};
    assert forall other :: other in keys ==> other == least || other in rest;
    if rest != {} {
      var m := Least(rest);
      if m < least {
        least := m;
      }
    }
  }

  function LeastOf(keys: set<Key>): (k: Key)
    requires keys != {}
    ensures k in keys && forall other :: other in keys ==> k <= other
  {
    assert exists k :: k in keys && forall other :: other in keys ==> k <= other by {
      var _ := Least(keys);
    }
    var k :| k in keys && forall other :: other in keys ==> k <= other;
    k
  }

  /** A set of keys in ascending order, the order in which an ordered set is iterated. */
  function Ascending(keys: set<Key>): (order: seq<Key>)
    ensures Ascends(order) && forall k :: k in order <==> k in keys
  {
    if keys == {} then [] else [LeastOf(keys)] + Ascending(keys - {LeastOf(keys)})
  }

  // The edge machine

  /** All the pump and the dispatcher remember: the keys down at the last focused sample, and the hold. */
  datatype Edge = Edge(focused: bool, down: set<Key>, held: Option<KeyChord>)

  /** The actions bound to newly pressed keys, in the order given. */
  function Fired(bindings: seq<Binding>, news: seq<Key>, m: Modifiers): seq<SpeedAction> {
    if news == [] then []
    else
      var bound := Lookup(bindings, KeyChord(news[|news| - 1], m));
      Fired(bindings, news[..|news| - 1], m) + if bound.Some? then [ActionOf(bound.value)] else []
  }

  /** The hold in force once those keys are pressed. */
  function HeldAfter(bindings: seq<Binding>, news: seq<Key>, m: Modifiers, held: Option<KeyChord>): Option<KeyChord> {
    if news == [] then held
    else
      var chord := KeyChord(news[|news| - 1], m);
      var bound := Lookup(bindings, chord);
      if bound.Some? && bound.value.HoldKey? then Some(chord)
      else HeldAfter(bindings, news[..|news| - 1], m, held)
  }

  function Watched(snapshot: InputSnapshot, keys: seq<Key>): set<Key> {
    set k | k in snapshot.downKeys && k in keys
  }

  /** A live hold is broken by its key or a modifier of its chord no longer being down. */
  predicate Broken(held: Option<KeyChord>, down: set<Key>) {
    held.Some? && (held.value.key !in down || !Includes(ModifiersOf(down), held.value.modifiers))
  }

  function EdgeStep(bindings: seq<Binding>, keys: seq<Key>, e: Edge, snapshot: InputSnapshot)
    : (Edge, seq<SpeedAction>)
  {
    if !snapshot.focused then
      (Edge(false, {}, None), if e.focused then [FocusLost] else [])
    else
      var down := Watched(snapshot, keys);
      if !e.focused then (Edge(true, down, None), [])
      else
        var m := ModifiersOf(down);
        var news := Ascending(down - e.down);
        var broken := Broken(e.held, down);
        (Edge(true, down, HeldAfter(bindings, news, m, if broken then None else e.held)),
         (if broken then [HoldRelease] else []) + Fired(bindings, news, m))
  }

  /** The keys polled for a table: its own and, unless it is empty, the modifiers. */
  function KeysOf(bindings: seq<Binding>): set<Key> {
    var own := set b | b in bindings :: b.chord.key;
    if own == {} then {} else own + {CONTROL, ALT, SHIFT}
  }

  class FocusedInputPump {
    const dispatcher: SpeedHotkeyDispatcher
    const keys: seq<Key>
    var previouslyDown: set<Key>
    var focused: bool

    /** The dispatcher's own memory of pressed keys never goes beyond the pump's, and a live hold's
        chord was down at the last sample. */
    ghost predicate Valid()
      reads this, dispatcher
    {
      && dispatcher.focused == focused
      && keys == Ascending(KeysOf(dispatcher.bindings))
      && dispatcher.pressed <= previouslyDown
      && (dispatcher.held.Some? ==>
            focused && dispatcher.held.value.key in previouslyDown
            && Includes(ModifiersOf(previouslyDown), dispatcher.held.value.modifiers))
      && (!focused ==> previouslyDown == {})
    }

    ghost function State(): Edge
      reads this, dispatcher
    {
      Edge(focused, previouslyDown, dispatcher.held)
    }

    constructor (bindings: seq<Binding>)
      ensures Valid() && fresh(dispatcher) && dispatcher.bindings == bindings
      ensures State() == Edge(false, {}, None)
    {
      dispatcher := new SpeedHotkeyDispatcher(bindings);
      keys := Ascending(KeysOf(bindings));
      previouslyDown, focused := {}, false;
    }

    method Sample(snapshot: InputSnapshot) returns (actions: seq<SpeedAction>)
      requires Valid()
      modifies this, dispatcher
      ensures Valid()
      ensures (State(), actions) == EdgeStep(dispatcher.bindings, keys, old(State()), snapshot)
    {
      if !snapshot.focused {
        if !focused {
          return [];
        }
        focused := false;
        previouslyDown := {};
        var lost := dispatcher.OnFocusLost();
        return [lost];
      }
      var down := set k | k in snapshot.downKeys && k in keys;
      if !focused {
        focused := true;
        previouslyDown := down;
        dispatcher.OnFocusGained();
        return [];
      }
      var modifiers := ModifiersOf(down);
      var released := ReleaseKeys(down, modifiers);
      var pressed := PressKeys(down, modifiers);
      previouslyDown := down;
      actions := released + pressed;
    }

    /** Releases come first, so that a hold ends before a press of the same sample can act. */
    method ReleaseKeys(down: set<Key>, m: Modifiers) returns (actions: seq<SpeedAction>)
      requires Valid() && focused && m == ModifiersOf(down)
      modifies dispatcher
      ensures dispatcher.focused && dispatcher.pressed <= previouslyDown * down
      ensures var broken := Broken(old(dispatcher.held), down);
              && actions == (if broken then [HoldRelease] else [])
              && dispatcher.held == if broken then None else old(dispatcher.held)
    {
      actions := [];
      var order := Ascending(previouslyDown - down);
      ghost var held := dispatcher.held;
      for i := 0 to |order|
        invariant dispatcher.focused && dispatcher.pressed <= previouslyDown
        invariant forall j :: 0 <= j < i ==> order[j] !in dispatcher.pressed
        invariant if actions == [] then
                    && dispatcher.held == held
                    && (held.Some? && 0 < i ==> Includes(m, held.value.modifiers) && held.value.key !in order[..i])
                  else
                    actions == [HoldRelease] && dispatcher.held == None && Broken(held, down)
      {
        assert order[i] in previouslyDown - down;
        var action := dispatcher.OnKey(KeyEvent(order[i], m, false, false));
        if action.Some? {
          actions := actions + [action.value];
        }
      }
      assert forall k :: k in previouslyDown && k !in down ==> k in order;
      assert order[..|order|] == order;
      if Broken(held, down) {
        BrokenMeansReleased(held.value, previouslyDown, down);
        assert actions != [];
      }
    }

    /** Every key of the sample that was not down before acts once, in ascending order. */
    method PressKeys(down: set<Key>, m: Modifiers) returns (actions: seq<SpeedAction>)
      requires dispatcher.focused && dispatcher.pressed <= previouslyDown * down && m == ModifiersOf(down)
      requires !Broken(dispatcher.held, down)
      modifies dispatcher
      ensures dispatcher.focused && dispatcher.pressed <= down && !Broken(dispatcher.held, down)
      ensures actions == Fired(dispatcher.bindings, Ascending(down - previouslyDown), m)
      ensures dispatcher.held == HeldAfter(dispatcher.bindings, Ascending(down - previouslyDown), m,
          old(dispatcher.held))
    {
      actions := [];
      var order := Ascending(down - previouslyDown);
      for i := 0 to |order|
        invariant dispatcher.focused && dispatcher.pressed <= down && !Broken(dispatcher.held, down)
        invariant forall j :: i <= j < |order| ==> order[j] !in dispatcher.pressed
        invariant actions == Fired(dispatcher.bindings, order[..i], m)
        invariant dispatcher.held == HeldAfter(dispatcher.bindings, order[..i], m, old(dispatcher.held))
      {
        assert order[..i + 1][..i] == order[..i] && order[i] in down - previouslyDown;
        var action := dispatcher.OnKey(KeyEvent(order[i], m, true, false));
        if action.Some? {
          actions := actions + [action.value];
        }
      }
      assert order[..|order|] == order;
    }
  }

  /** A hold broken since the last sample always shows as a released key. */
  lemma BrokenMeansReleased(held: KeyChord, before: set<Key>, down: set<Key>)
    requires held.key in before && Includes(ModifiersOf(before), held.modifiers)
    requires Broken(Some(held), down)
    ensures before - down != {}
    ensures Ascending(before - down) != []
    ensures held.key !in down ==> held.key in Ascending(before - down)
  {
  }

  /** Keys that are not watched cannot be noticed: nothing but focus and the watched keys matters. */
  lemma OnlyWatchedKeysMatter(bindings: seq<Binding>, e: Edge, a: InputSnapshot, b: InputSnapshot)
    requires a.focused == b.focused
    requires forall k :: k in KeysOf(bindings) ==> (k in a.downKeys <==> k in b.downKeys)
    ensures var keys := Ascending(KeysOf(bindings)); EdgeStep(bindings, keys, e, a) == EdgeStep(bindings, keys, e, b)
  {
    var keys := Ascending(KeysOf(bindings));
    assert Watched(a, keys) == Watched(b, keys);
  }
}
