/** Window epoch, pump and dispatcher composed over a whole stream of window candidates. */
module InputTrace {
  import opened Numbers
  import opened Config
  import opened Session
  import opened Hotkeys
  import opened InputPump
  import opened WindowEpoch

  type Candidate = Option<(U64, InputSnapshot)>

  /** The composed state: the window of the epoch, and the edge machine behind it. */
  datatype Chain = Chain(window: Option<U64>, edge: Edge)

  /** The start, before any window was seen. */
  const NO_WINDOW := Chain(None, Edge(false, {}, None))

  function Sampled(bindings: seq<Binding>, c: Chain, candidate: Candidate): (Chain, seq<SpeedAction>) {
    var (window, snapshot) := Observed(c.window, candidate);
    var (edge, actions) := EdgeStep(bindings, Ascending(KeysOf(bindings)), c.edge, snapshot);
    (Chain(window, edge), actions)
  }

  function After(bindings: seq<Binding>, stream: seq<Candidate>): Chain {
    if stream == [] then NO_WINDOW
    else Sampled(bindings, After(bindings, stream[..|stream| - 1]), stream[|stream| - 1]).0
  }

  /** The actions emitted at tick `i` of a stream. */
  function ActionsAt(bindings: seq<Binding>, stream: seq<Candidate>, i: nat): seq<SpeedAction>
    requires i < |stream|
  {
    Sampled(bindings, After(bindings, stream[..i]), stream[i]).1
  }

  function AllActions(bindings: seq<Binding>, stream: seq<Candidate>): seq<SpeedAction> {
    if stream == [] then []
    else AllActions(bindings, stream[..|stream| - 1]) + ActionsAt(bindings, stream, |stream| - 1)
  }

  /** One tick of the three objects wired together is one step of the chain. */
  method Tick(epoch: FocusedWindowEpoch, pump: FocusedInputPump, candidate: Candidate)
    returns (actions: seq<SpeedAction>)
    requires pump.Valid()
    modifies epoch, pump, pump.dispatcher
    ensures pump.Valid()
    ensures (Chain(epoch.activeWindow, pump.State()), actions)
            == Sampled(pump.dispatcher.bindings, Chain(old(epoch.activeWindow), old(pump.State())), candidate)
  {
    var snapshot := epoch.Observe(candidate);
    actions := pump.Sample(snapshot);
  }

  /** While the edge machine has focus, the last candidate was its window, focused, with exactly the
      watched keys it remembers. */
  ghost predicate Grounded(bindings: seq<Binding>, c: Chain, last: Candidate) {
    && (c.edge.focused ==>
          && Focused(last) && c.window == Some(last.value.0)
          && c.edge.down == Watched(last.value.1, Ascending(KeysOf(bindings))))
    && (c.edge.held.Some? ==>
          c.edge.focused && c.edge.held.value.key in c.edge.down && IsHold(bindings, c.edge.held.value))
  }

  lemma {:induction false} HeldAfterIsBound(bindings: seq<Binding>, news: seq<Key>, m: Modifiers,
      held: Option<KeyChord>)
    ensures var h := HeldAfter(bindings, news, m, held);
            h == held || (h.Some? && h.value.key in news && h.value.modifiers == m && IsHold(bindings, h.value))
  {
    if news != [] {
      HeldAfterIsBound(bindings, news[..|news| - 1], m, held);
    }
  }

  lemma SampledIsGrounded(bindings: seq<Binding>, c: Chain, last: Candidate, next: Candidate)
    requires Grounded(bindings, c, last)
    ensures Grounded(bindings, Sampled(bindings, c, next).0, next)
  {
    var (window, snapshot) := Observed(c.window, next);
    if snapshot.focused && c.edge.focused {
      var down := Watched(snapshot, Ascending(KeysOf(bindings)));
      HeldAfterIsBound(bindings, Ascending(down - c.edge.down), ModifiersOf(down),
                       if Broken(c.edge.held, down) then None else c.edge.held);
    }
  }

  lemma {:induction false} StreamsAreGrounded(bindings: seq<Binding>, stream: seq<Candidate>)
    ensures Grounded(bindings, After(bindings, stream), if stream == [] then None else stream[|stream| - 1])
  {
    if stream != [] {
      StreamsAreGrounded(bindings, stream[..|stream| - 1]);
      SampledIsGrounded(bindings, After(bindings, stream[..|stream| - 1]),
        if |stream| == 1 then None else stream[|stream| - 2], stream[|stream| - 1]);
    }
  }

  // Where actions come from

  /** `k` went down between two consecutive ticks, both in the same focused window. */
  ghost predicate PressedInPlace(before: Candidate, now: Candidate, k: Key) {
    && Focused(before) && Focused(now) && before.value.0 == now.value.0
    && k !in before.value.1.downKeys && k in now.value.1.downKeys
  }

  /** The key whose press an action answers, with the modifiers the keys of that tick spell. */
  ghost predicate Answers(bindings: seq<Binding>, now: Candidate, k: Key, a: SpeedAction) {
    && now.Some?
    && var down := set x | x in now.value.1.downKeys && x in KeysOf(bindings);
       var bound := Lookup(bindings, KeyChord(k, ModifiersOf(down)));
       bound.Some? && a == ActionOf(bound.value)
  }

  lemma {:induction false} FiredComesFromAKey(bindings: seq<Binding>, news: seq<Key>, m: Modifiers, a: SpeedAction)
    requires a in Fired(bindings, news, m)
    ensures exists k :: k in news && Lookup(bindings, KeyChord(k, m)).Some?
                        && a == ActionOf(Lookup(bindings, KeyChord(k, m)).value)
  {
    var last := news[|news| - 1];
    var bound := Lookup(bindings, KeyChord(last, m));
    if bound.Some? && a == ActionOf(bound.value) {
      assert last in news;
    } else {
      FiredComesFromAKey(bindings, news[..|news| - 1], m, a);
    }
  }

  /** One tick: such an action answers a key pressed since the last candidate. */
  lemma SampleAnswersAPress(bindings: seq<Binding>, c: Chain, last: Candidate, now: Candidate,
      a: SpeedAction) returns (k: Key)
    requires Grounded(bindings, c, last) && a in Sampled(bindings, c, now).1 && a != HoldRelease && a != FocusLost
    ensures PressedInPlace(last, now, k) && Answers(bindings, now, k, a)
  {
    var snapshot := Observed(c.window, now).1;
    var down := Watched(snapshot, Ascending(KeysOf(bindings)));
    var m := ModifiersOf(down);
    FiredComesFromAKey(bindings, Ascending(down - c.edge.down), m, a);
    k :| k in Ascending(down - c.edge.down) && Lookup(bindings, KeyChord(k, m)).Some?
         && a == ActionOf(Lookup(bindings, KeyChord(k, m)).value);
    assert k in down && k !in c.edge.down;
    assert down == set x | x in now.value.1.downKeys && x in KeysOf(bindings);
  }

  /** Every action but a release or a focus loss answers a bound key that was up at the previous tick
      and is down at this one, in one and the same focused window. */
  lemma ActionsAnswerPresses(bindings: seq<Binding>, stream: seq<Candidate>, i: nat, a: SpeedAction) returns (k: Key)
    requires i < |stream| && a in ActionsAt(bindings, stream, i) && a != HoldRelease && a != FocusLost
    ensures 0 < i && PressedInPlace(stream[i - 1], stream[i], k) && Answers(bindings, stream[i], k, a)
  {
    StreamsAreGrounded(bindings, stream[..i]);
    k := SampleAnswersAPress(bindings, After(bindings, stream[..i]), if i == 0
        then None else stream[i - 1], stream[i], a);
  }

  // Windows do not mix

  lemma FocusEndsWithFocusLost(bindings: seq<Binding>, c: Chain, last: Candidate, next: Candidate)
    requires Grounded(bindings, c, last) && c.edge.focused
    ensures var (after, actions) := Sampled(bindings, c, next);
            FocusLost in actions || (after.edge.focused && after.window == c.window)
  {
  }

  lemma {:induction false} FocusSurvivesUntilLost(bindings: seq<Binding>, stream: seq<Candidate>, i: nat, j: nat)
    requires i <= j <= |stream| && After(bindings, stream[..i]).edge.focused
    requires forall k :: i <= k < j ==> FocusLost !in ActionsAt(bindings, stream, k)
    ensures After(bindings, stream[..j]).edge.focused
    ensures After(bindings, stream[..j]).window == After(bindings, stream[..i]).window
    decreases j
  {
    if i < j {
      FocusSurvivesUntilLost(bindings, stream, i, j - 1);
      var prefix := stream[..j - 1];
      StreamsAreGrounded(bindings, prefix);
      assert stream[..j][..j - 1] == prefix && stream[..j][j - 1] == stream[j - 1];
      assert FocusLost !in ActionsAt(bindings, stream, j - 1);
      FocusEndsWithFocusLost(bindings, After(bindings, prefix), if prefix == []
          then None else prefix[j - 2], stream[j - 1]);
    }
  }

  lemma AnswersMeanFocus(bindings: seq<Binding>, stream: seq<Candidate>, i: nat, a: SpeedAction)
    requires i < |stream| && a in ActionsAt(bindings, stream, i) && a != HoldRelease && a != FocusLost
    ensures stream[i].Some?
    ensures After(bindings, stream[..i]).window == Some(stream[i].value.0)
    ensures After(bindings, stream[..i + 1]).edge.focused
    ensures After(bindings, stream[..i + 1]).window == Some(stream[i].value.0)
  {
  }

  /** Actions answering presses in two different windows are separated by a focus loss. */
  lemma WindowsAreSeparated(bindings: seq<Binding>, stream: seq<Candidate>, i: nat, a: SpeedAction, j: nat,
      b: SpeedAction)
    requires i < j < |stream| && a in ActionsAt(bindings, stream, i) && b in ActionsAt(bindings, stream, j)
    requires {a, b} !! {HoldRelease, FocusLost}
    ensures stream[i].Some? && stream[j].Some?
    ensures stream[i].value.0 != stream[j].value.0 ==>
              exists k :: i < k < j && FocusLost in ActionsAt(bindings, stream, k)
  {
    assert a in {a, b} && b in {a, b};
    AnswersMeanFocus(bindings, stream, i, a);
    AnswersMeanFocus(bindings, stream, j, b);
    if forall k :: i < k < j ==> FocusLost !in ActionsAt(bindings, stream, k) {
      FocusSurvivesUntilLost(bindings, stream, i + 1, j);
    }
  }

  // Holds alternate with their ends

  /** One action read as a bracket: a hold opens, a release or a focus loss closes. A hold while open, or
      a release while closed, has no reading. */
  function Bracket(open: Option<bool>, a: SpeedAction): Option<bool> {
    if open.None? then None
    else if a.HoldStart? then (if open.value then None else Some(true))
    else if a == HoldRelease then (if open.value then Some(false) else None)
    else if a == FocusLost then Some(false)
    else open
  }

  function Brackets(actions: seq<SpeedAction>, open: bool): Option<bool> {
    if actions == [] then Some(open)
    else Bracket(Brackets(actions[..|actions| - 1], open), actions[|actions| - 1])
  }

  lemma {:induction false} BracketsConcatenate(xs: seq<SpeedAction>, ys: seq<SpeedAction>, open: bool)
    ensures Brackets(xs + ys, open) ==
            if Brackets(xs, open).None? then None else Brackets(ys, Brackets(xs, open).value)
    decreases |ys|
  {
    if ys == [] {
      assert xs + ys == xs;
    } else {
      var init := ys[..|ys| - 1];
      BracketsConcatenate(xs, init, open);
      assert (xs + ys)[..|xs + ys| - 1] == xs + init;
    }
  }

  predicate IsHold(bindings: seq<Binding>, c: KeyChord) {
    Lookup(bindings, c).Some? && Lookup(bindings, c).value.HoldKey?
  }

  ghost predicate OnlyHold(bindings: seq<Binding>, hold: KeyChord) {
    forall c :: IsHold(bindings, c) ==> c == hold
  }

  lemma OneMoreKey(bindings: seq<Binding>, init: seq<Key>, k: Key, m: Modifiers, held: Option<KeyChord>)
    ensures var chord := KeyChord(k, m);
            var bound := Lookup(bindings, chord);
            && Fired(bindings, init + [k], m) == Fired(bindings, init, m)
                + (if bound.Some? then [ActionOf(bound.value)] else [])
            && HeldAfter(bindings, init + [k], m, held)
               == if IsHold(bindings, chord) then Some(chord) else HeldAfter(bindings, init, m, held)
  {
  }

  /** A press that is bound is one more bracket; only the hold key opens one, and it is not down yet. */
  lemma OneMorePress(bindings: seq<Binding>, fired: seq<SpeedAction>, chord: KeyChord, start: bool, open: bool)
    requires Lookup(bindings, chord).Some? && Brackets(fired, start) == Some(open)
    requires open ==> !IsHold(bindings, chord)
    ensures Brackets(fired + [ActionOf(Lookup(bindings, chord).value)], start) == Some(open || IsHold(bindings, chord))
  {
  }

  /** With one hold in the table, presses open a bracket at most once and only where none is open. */
  lemma {:induction false} PressesOpenOnce(bindings: seq<Binding>, hold: KeyChord, news: seq<Key>, m: Modifiers,
                                           held: Option<KeyChord>)
    requires OnlyHold(bindings, hold) && Ascends(news)
    requires held.Some? ==> IsHold(bindings, held.value) && held.value.key !in news
    ensures Brackets(Fired(bindings, news, m), held.Some?) == Some(HeldAfter(bindings, news, m, held).Some?)
  {
    if news != [] {
      var n := |news| - 1;
      var init, chord := news[..n], KeyChord(news[n], m);
      PressesOpenOnce(bindings, hold, init, m, held);
      OneMoreKey(bindings, init, news[n], m, held);
      assert news == init + [news[n]];
      var fired, before := Fired(bindings, init, m), HeldAfter(bindings, init, m, held);
      if Lookup(bindings, chord).Some? {
        assert before.Some? ==> !IsHold(bindings, chord) by {
          HeldAfterIsBound(bindings, init, m, held);
        }
        OneMorePress(bindings, fired, chord, held.Some?, before.Some?);
      } else {
        assert fired + [] == fired;
      }
    }
  }

  /** A compiled table has a single hold chord, if any. */
  lemma CompiledTablesHoldOnce(bindings: seq<Binding>, s: SpeedSettings) returns (hold: KeyChord)
    requires Compiled(bindings, s)
    ensures OnlyHold(bindings, hold)
  {
    if c :| IsHold(bindings, c) {
      hold := c;
      LookupFindsABinding(bindings, c);
      forall d | IsHold(bindings, d) ensures d == hold {
        LookupFindsABinding(bindings, d);
        var i :| 0 <= i < |bindings| && bindings[i] == Binding(c, Lookup(bindings, c).value);
        var j :| 0 <= j < |bindings| && bindings[j] == Binding(d, Lookup(bindings, d).value);
        assert i == j;
      }
    } else {
      hold := KeyChord(0, Modifiers(false, false, false));
    }
  }

  lemma SampleIsBracketed(bindings: seq<Binding>, s: SpeedSettings, c: Chain, last: Candidate, next: Candidate)
    requires Compiled(bindings, s) && Grounded(bindings, c, last)
    ensures var (after, actions) := Sampled(bindings, c, next);
            Brackets(actions, c.edge.held.Some?) == Some(after.edge.held.Some?)
  {
    var snapshot := Observed(c.window, next).1;
    if snapshot.focused && c.edge.focused {
      var down := Watched(snapshot, Ascending(KeysOf(bindings)));
      var news, m := Ascending(down - c.edge.down), ModifiersOf(down);
      var broken := Broken(c.edge.held, down);
      var live := if broken then None else c.edge.held;
      var hold := CompiledTablesHoldOnce(bindings, s);
      PressesOpenOnce(bindings, hold, news, m, live);
      var closing := if broken then [HoldRelease] else [];
      assert Brackets(closing, c.edge.held.Some?) == Some(live.Some?) by {
        assert Brackets([], c.edge.held.Some?) == Some(c.edge.held.Some?);
      }
      BracketsConcatenate(closing, Fired(bindings, news, m), c.edge.held.Some?);
    }
  }

  /** Over every stream, holds strictly alternate with releases and focus losses, and the machine
      remembers a hold exactly while one is open. */
  lemma {:induction false} HoldsAlternate(bindings: seq<Binding>, s: SpeedSettings, stream: seq<Candidate>)
    requires Compiled(bindings, s)
    ensures Brackets(AllActions(bindings, stream), false) == Some(After(bindings, stream).edge.held.Some?)
  {
    if stream != [] {
      var init := stream[..|stream| - 1];
      HoldsAlternate(bindings, s, init);
      StreamsAreGrounded(bindings, init);
      SampleIsBracketed(bindings, s, After(bindings, init), if init == []
          then None else init[|init| - 1], stream[|stream| - 1]);
      BracketsConcatenate(AllActions(bindings, init), ActionsAt(bindings, stream, |stream| - 1), false);
    }
  }
}
