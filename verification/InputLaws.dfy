/** Exactly which actions each tick of a stream of windows and keys causes, told by that tick and the ones before. */
module InputLaws {
  import opened Numbers
  import opened Config
  import opened Session
  import opened Hotkeys
  import opened InputPump
  import opened WindowEpoch
  import opened InputTrace

  /** Tick `j` shows a window with focus that is not a direct switch from another one. */
  ghost predicate InFocus(stream: seq<Candidate>, j: nat) {
    && j < |stream| && Focused(stream[j])
    && (0 < j && Focused(stream[j - 1]) ==> stream[j - 1].value.0 == stream[j].value.0)
  }

  /** What the chain remembers of the window is the last tick's, if it had focus; and the edge machine is in focus
      exactly if that tick was. */
  lemma {:induction false} FocusIsExact(bindings: seq<Binding>, stream: seq<Candidate>)
    ensures var c := After(bindings, stream);
            var n := |stream|;
            && c.window == (if n == 0 || !Focused(stream[n - 1]) then None else Some(stream[n - 1].value.0))
            && (c.edge.focused <==> 0 < n && InFocus(stream, n - 1))
  {
    if stream != [] {
      FocusIsExact(bindings, stream[..|stream| - 1]);
    }
  }

  /** The modifiers that are down at a tick. */
  function ModifiersAt(now: Candidate): Modifiers
    requires now.Some?
  {
    var keys := now.value.1.downKeys;
    Modifiers(0x11 in keys, 0x12 in keys, 0x10 in keys)
  }

  /** `k` went down at tick `i` in a window that was already in focus, and with the modifiers down then is bound to
      action `a`. */
  ghost predicate Presses(bindings: seq<Binding>, stream: seq<Candidate>, i: nat, k: Key, a: SpeedAction) {
    && 0 < i && InFocus(stream, i - 1) && InFocus(stream, i) && stream[i - 1].value.0 == stream[i].value.0
    && k !in stream[i - 1].value.1.downKeys && k in stream[i].value.1.downKeys
    && var bound := Lookup(bindings, KeyChord(k, ModifiersAt(stream[i]))); bound.Some? && a == ActionOf(bound.value)
  }

  /** What tick `i` sees if it and the one before are in focus: the keys down now and then, of those watched. */
  lemma FocusedTick(bindings: seq<Binding>, stream: seq<Candidate>, i: nat)
    requires 0 < i && InFocus(stream, i - 1) && InFocus(stream, i)
    ensures var c := After(bindings, stream[..i]);
            var keys := Ascending(KeysOf(bindings));
            && c.edge.focused && Observed(c.window, stream[i]).1 == stream[i].value.1
            && c.edge.down == Watched(stream[i - 1].value.1, keys)
            && ActionsAt(bindings, stream, i)
               == EdgeStep(bindings, keys, c.edge, stream[i].value.1).1
  {
    var init := stream[..i];
    FocusIsExact(bindings, init);
    StreamsAreGrounded(bindings, init);
    assert InFocus(init, i - 1);
  }

  lemma ModifiersAreWatched(bindings: seq<Binding>, now: Candidate)
    requires now.Some? && bindings != []
    ensures ModifiersOf(Watched(now.value.1, Ascending(KeysOf(bindings)))) == ModifiersAt(now)
  {
    var own := set b | b in bindings :: b.chord.key;
    assert bindings[0] in bindings && bindings[0].chord.key in own;
    var keys := KeysOf(bindings);
    assert keys == own + {CONTROL, ALT, SHIFT};
    assert CONTROL in Ascending(keys) && ALT in Ascending(keys) && SHIFT in Ascending(keys);
  }

  lemma BoundKeysAreWatched(bindings: seq<Binding>, chord: KeyChord)
    requires Lookup(bindings, chord).Some?
    ensures bindings != [] && chord.key in Ascending(KeysOf(bindings))
  {
    LookupFindsABinding(bindings, chord);
    var b := Binding(chord, Lookup(bindings, chord).value);
    assert b.chord.key in set x | x in bindings :: x.chord.key;
  }

  lemma {:induction false} KeysFire(bindings: seq<Binding>, news: seq<Key>, m: Modifiers, k: Key)
    requires k in news && Lookup(bindings, KeyChord(k, m)).Some?
    ensures ActionOf(Lookup(bindings, KeyChord(k, m)).value) in Fired(bindings, news, m)
  {
    var n := |news| - 1;
    if k != news[n] {
      KeysFire(bindings, news[..n], m, k);
    }
  }

  /** Every press of a bound chord is answered. */
  lemma PressesAreAnswered(bindings: seq<Binding>, stream: seq<Candidate>, i: nat, k: Key, a: SpeedAction)
    requires Presses(bindings, stream, i, k, a)
    ensures a in ActionsAt(bindings, stream, i)
  {
    var keys := Ascending(KeysOf(bindings));
    var down := Watched(stream[i].value.1, keys);
    FocusedTick(bindings, stream, i);
    BoundKeysAreWatched(bindings, KeyChord(k, ModifiersAt(stream[i])));
    ModifiersAreWatched(bindings, stream[i]);
    KeysFire(bindings, Ascending(down - After(bindings, stream[..i]).edge.down), ModifiersOf(down), k);
  }

  /** Other than releases and focus losses, the actions of a tick are exactly those of the chords pressed at it. */
  lemma ActionsAreThePresses(bindings: seq<Binding>, stream: seq<Candidate>, i: nat, a: SpeedAction)
    requires i < |stream| && a != HoldRelease && a != FocusLost
    ensures a in ActionsAt(bindings, stream, i) <==> exists k :: Presses(bindings, stream, i, k, a)
  {
    if k :| Presses(bindings, stream, i, k, a) {
      PressesAreAnswered(bindings, stream, i, k, a);
    }
    if a in ActionsAt(bindings, stream, i) {
      var k := ActionsArePresses(bindings, stream, i, a);
    }
  }

  lemma ActionsArePresses(bindings: seq<Binding>, stream: seq<Candidate>, i: nat, a: SpeedAction) returns (k: Key)
    requires i < |stream| && a in ActionsAt(bindings, stream, i) && a != HoldRelease && a != FocusLost
    ensures Presses(bindings, stream, i, k, a)
  {
    k := ActionsAnswerPresses(bindings, stream, i, a);
    AnswersMeanInFocus(bindings, stream, i, a);
    AnswersAreBound(bindings, stream[i], k, a);
  }

  lemma AnswersAreBound(bindings: seq<Binding>, now: Candidate, k: Key, a: SpeedAction)
    requires Answers(bindings, now, k, a)
    ensures var bound := Lookup(bindings, KeyChord(k, ModifiersAt(now))); bound.Some? && a == ActionOf(bound.value)
  {
    var down := set x | x in now.value.1.downKeys && x in KeysOf(bindings);
    BoundKeysAreWatched(bindings, KeyChord(k, ModifiersOf(down)));
    ModifiersAreWatched(bindings, now);
    assert down == Watched(now.value.1, Ascending(KeysOf(bindings)));
  }

  lemma AnswersMeanInFocus(bindings: seq<Binding>, stream: seq<Candidate>, i: nat, a: SpeedAction)
    requires i < |stream| && a in ActionsAt(bindings, stream, i) && a != HoldRelease && a != FocusLost
    ensures 0 < i && InFocus(stream, i - 1) && InFocus(stream, i)
  {
    FocusIsExact(bindings, stream[..i]);
    FocusIsExact(bindings, stream[..i + 1]);
    AnswersMeanFocus(bindings, stream, i, a);
    assert stream[..i + 1][..i] == stream[..i];
    assert InFocus(stream[..i + 1], i);
    if 0 < i {
      assert InFocus(stream[..i], i - 1) <==> InFocus(stream, i - 1);
    }
  }

  /** A focus loss is reported exactly when a window in focus loses it or another window takes over. */
  lemma FocusLossesAreReported(bindings: seq<Binding>, stream: seq<Candidate>, i: nat)
    requires i < |stream|
    ensures FocusLost in ActionsAt(bindings, stream, i)
            <==> 0 < i && InFocus(stream, i - 1) && !InFocus(stream, i)
  {
    var init := stream[..i];
    FocusIsExact(bindings, init);
    if 0 < i {
      assert InFocus(init, i - 1) <==> InFocus(stream, i - 1);
    }
    var c := After(bindings, init);
    LossIsReported(bindings, Ascending(KeysOf(bindings)), c.edge, Observed(c.window, stream[i]).1);
  }

  lemma LossIsReported(bindings: seq<Binding>, keys: seq<Key>, e: Edge, snapshot: InputSnapshot)
    ensures FocusLost in EdgeStep(bindings, keys, e, snapshot).1 <==> e.focused && !snapshot.focused
  {
    if snapshot.focused && e.focused {
      var down := Watched(snapshot, keys);
      if FocusLost in Fired(bindings, Ascending(down - e.down), ModifiersOf(down)) {
        FiredComesFromAKey(bindings, Ascending(down - e.down), ModifiersOf(down), FocusLost);
      }
    }
  }

  /** The keys of a tick no longer hold a chord down: its own key or one of its modifiers is up. */
  predicate LetsGo(chord: KeyChord, now: Candidate)
    requires now.Some?
  {
    var keys := now.value.1.downKeys;
    || chord.key !in keys || (chord.modifiers.ctrl && 0x11 !in keys) || (chord.modifiers.alt && 0x12 !in keys)
    || (chord.modifiers.shift && 0x10 !in keys)
  }

  /** A hold is released exactly when it is open and its chord is let go in the focused window; and the release comes
      before anything else. */
  lemma ReleasesAreExact(bindings: seq<Binding>, stream: seq<Candidate>, i: nat)
    requires i < |stream|
    ensures var held := After(bindings, stream[..i]).edge.held;
            && (HoldRelease in ActionsAt(bindings, stream, i)
                <==> && 0 < i && InFocus(stream, i - 1) && InFocus(stream, i)
                     && held.Some? && LetsGo(held.value, stream[i]))
            && (HoldRelease in ActionsAt(bindings, stream, i) ==> ActionsAt(bindings, stream, i)[0] == HoldRelease)
  {
    var init := stream[..i];
    FocusIsExact(bindings, init);
    StreamsAreGrounded(bindings, init);
    if 0 < i {
      assert InFocus(init, i - 1) <==> InFocus(stream, i - 1);
    }
    var c := After(bindings, init);
    var snapshot := Observed(c.window, stream[i]).1;
    ReleaseIsReported(bindings, Ascending(KeysOf(bindings)), c.edge, snapshot);
    if snapshot.focused && c.edge.held.Some? {
      BrokenMeansLetGo(bindings, c.edge.held.value, stream[i]);
    }
  }

  lemma ReleaseIsReported(bindings: seq<Binding>, keys: seq<Key>, e: Edge, snapshot: InputSnapshot)
    ensures var actions := EdgeStep(bindings, keys, e, snapshot).1;
            && (HoldRelease in actions
                <==> e.focused && snapshot.focused && Broken(e.held, Watched(snapshot, keys)))
            && (HoldRelease in actions ==> actions[0] == HoldRelease)
  {
    if snapshot.focused && e.focused {
      var down := Watched(snapshot, keys);
      if HoldRelease in Fired(bindings, Ascending(down - e.down), ModifiersOf(down)) {
        FiredComesFromAKey(bindings, Ascending(down - e.down), ModifiersOf(down), HoldRelease);
      }
    }
  }

  lemma BrokenMeansLetGo(bindings: seq<Binding>, held: KeyChord, now: Candidate)
    requires now.Some? && IsHold(bindings, held)
    ensures Broken(Some(held), Watched(now.value.1, Ascending(KeysOf(bindings)))) <==> LetsGo(held, now)
  {
    BoundKeysAreWatched(bindings, held);
    ModifiersAreWatched(bindings, now);
  }

  /** Of two bound keys pressed at one tick, the one with the smaller code acts first. */
  lemma {:induction false} KeysFireInOrder(bindings: seq<Binding>, news: seq<Key>, m: Modifiers, k: Key, l: Key)
      returns (i: nat, j: nat)
    requires Ascends(news) && k in news && l in news && k < l
    requires Lookup(bindings, KeyChord(k, m)).Some? && Lookup(bindings, KeyChord(l, m)).Some?
    ensures i < j < |Fired(bindings, news, m)|
    ensures Fired(bindings, news, m)[i] == ActionOf(Lookup(bindings, KeyChord(k, m)).value)
    ensures Fired(bindings, news, m)[j] == ActionOf(Lookup(bindings, KeyChord(l, m)).value)
  {
    var n := |news| - 1;
    var init := news[..n];
    if l == news[n] {
      assert k in init;
      KeysFire(bindings, init, m, k);
      var a := ActionOf(Lookup(bindings, KeyChord(k, m)).value);
      i :| 0 <= i < |Fired(bindings, init, m)| && Fired(bindings, init, m)[i] == a;
      j := |Fired(bindings, init, m)|;
    } else {
      assert k in init && l in init;
      i, j := KeysFireInOrder(bindings, init, m, k, l);
    }
  }

  lemma EdgesActInOrder(bindings: seq<Binding>, keys: seq<Key>, e: Edge, snapshot: InputSnapshot, k: Key, l: Key)
      returns (x: nat, y: nat)
    requires e.focused && snapshot.focused && k < l
    requires k in Watched(snapshot, keys) - e.down && l in Watched(snapshot, keys) - e.down
    requires var m := ModifiersOf(Watched(snapshot, keys));
             Lookup(bindings, KeyChord(k, m)).Some? && Lookup(bindings, KeyChord(l, m)).Some?
    ensures var actions, m := EdgeStep(bindings, keys, e, snapshot).1, ModifiersOf(Watched(snapshot, keys));
            && x < y < |actions| && actions[x] == ActionOf(Lookup(bindings, KeyChord(k, m)).value)
            && actions[y] == ActionOf(Lookup(bindings, KeyChord(l, m)).value)
  {
    var down := Watched(snapshot, keys);
    var fired := Fired(bindings, Ascending(down - e.down), ModifiersOf(down));
    var i, j := KeysFireInOrder(bindings, Ascending(down - e.down), ModifiersOf(down), k, l);
    var release := if Broken(e.held, down) then [HoldRelease] else [];
    var all := release + fired;
    assert all[|release| + i] == fired[i] && all[|release| + j] == fired[j];
    return |release| + i, |release| + j;
  }

  lemma PressesActInOrder(bindings: seq<Binding>, stream: seq<Candidate>, i: nat, k: Key, a: SpeedAction,
      l: Key, b: SpeedAction) returns (x: nat, y: nat)
    requires Presses(bindings, stream, i, k, a) && Presses(bindings, stream, i, l, b) && k < l
    ensures x < y < |ActionsAt(bindings, stream, i)|
    ensures ActionsAt(bindings, stream, i)[x] == a && ActionsAt(bindings, stream, i)[y] == b
  {
    FocusedTick(bindings, stream, i);
    NewlyDown(bindings, stream, i, k, a);
    NewlyDown(bindings, stream, i, l, b);
    x, y := EdgesActInOrder(bindings, Ascending(KeysOf(bindings)), After(bindings, stream[..i]).edge,
      stream[i].value.1, k, l);
  }

  lemma NewlyDown(bindings: seq<Binding>, stream: seq<Candidate>, i: nat, k: Key, a: SpeedAction)
    requires Presses(bindings, stream, i, k, a)
    ensures var down := Watched(stream[i].value.1, Ascending(KeysOf(bindings)));
            && k in down - After(bindings, stream[..i]).edge.down
            && Lookup(bindings, KeyChord(k, ModifiersOf(down))).Some?
            && a == ActionOf(Lookup(bindings, KeyChord(k, ModifiersOf(down))).value)
  {
    FocusedTick(bindings, stream, i);
    BoundKeysAreWatched(bindings, KeyChord(k, ModifiersAt(stream[i])));
    ModifiersAreWatched(bindings, stream[i]);
  }
}
