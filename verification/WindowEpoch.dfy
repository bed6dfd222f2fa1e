/** Choosing the one window whose keyboard may be observed, and keeping its identity across samples. */
module WindowEpoch {
  import opened Numbers
  import opened InputPump

  datatype WindowCandidate = WindowCandidate(
    id: U64, currentProcess: bool, topLevel: bool, visible: bool, owned: bool, toolWindow: bool, title: string)

  datatype SelectionError = NoEligibleWindow | AmbiguousWindows

  predicate IsToolTitle(title: string) {
    "Intimatr \U{2014} " <= title || "Intimatr Debugger \U{2014} " <= title
  }

  predicate Eligible(w: WindowCandidate) {
    && w.id != 0 && w.currentProcess && w.topLevel && w.visible
    && !w.owned && !w.toolWindow && !IsToolTitle(w.title)
  }

  const PLAIN_WINDOW := WindowCandidate(1, true, true, true, false, false, "")

  /** A plain window with any identity is eligible unless its title names the program, and one property is enough to
      make any window ineligible. */
  lemma OnePropertyDisqualifies(w: WindowCandidate, title: string)
    ensures w.id != 0 && !("Intimatr" <= title) ==> Eligible(PLAIN_WINDOW.(id := w.id, title := title))
    ensures !Eligible(w.(id := 0)) && !Eligible(w.(currentProcess := false)) && !Eligible(w.(topLevel := false))
    ensures !Eligible(w.(visible := false)) && !Eligible(w.(owned := true)) && !Eligible(w.(toolWindow := true))
    ensures !Eligible(w.(title := "Intimatr \U{2014} " + title))
    ensures !Eligible(w.(title := "Intimatr Debugger \U{2014} " + title))
  {
    assert "Intimatr \U{2014} "[..8] == "Intimatr Debugger \U{2014} "[..8] == "Intimatr";
    assert IsToolTitle(title) ==> title[..8] == "Intimatr";
  }

  function EligibleIds(candidates: seq<WindowCandidate>): seq<U64> {
    if candidates == [] then []
    else
      var last := candidates[|candidates| - 1];
      EligibleIds(candidates[..|candidates| - 1]) + if Eligible(last) then [last.id] else []
  }

  /** The outcome the number of eligible windows calls for. */
  function Choice(ids: seq<U64>): Result<U64, SelectionError> {
    if |ids| == 0 then Err(NoEligibleWindow) else if |ids| == 1 then Ok(ids[0]) else Err(AmbiguousWindows)
  }

  method ChooseUnique(candidates: seq<WindowCandidate>) returns (r: Result<U64, SelectionError>)
    ensures r == Choice(EligibleIds(candidates))
  {
    var selected: Option<U64> := None;
    for i := 0 to |candidates|
      invariant EligibleIds(candidates[..i]) == if selected.Some? then [selected.value] else []
    {
      assert candidates[..i + 1][..i] == candidates[..i];
      if Eligible(candidates[i]) {
        if selected.Some? {
          IdsGrow(candidates, i + 1);
          return Err(AmbiguousWindows);
        }
        selected := Some(candidates[i].id);
      }
    }
    assert candidates[..|candidates|] == candidates;
    return if selected.Some? then Ok(selected.value) else Err(NoEligibleWindow);
  }

  lemma {:induction false} IdsGrow(candidates: seq<WindowCandidate>, i: nat)
    requires i <= |candidates|
    ensures |EligibleIds(candidates[..i])| <= |EligibleIds(candidates)|
    decreases |candidates|
  {
    if i < |candidates| {
      var init := candidates[..|candidates| - 1];
      assert candidates[..i] == init[..i];
      IdsGrow(init, i);
    } else {
      assert candidates[..i] == candidates;
    }
  }

  lemma {:induction false} IdsConcatenate(a: seq<WindowCandidate>, b: seq<WindowCandidate>)
    ensures EligibleIds(a + b) == EligibleIds(a) + EligibleIds(b)
    decreases |b|
  {
    if b == [] {
      assert a + b == a;
    } else {
      var init := b[..|b| - 1];
      IdsConcatenate(a, init);
      assert (a + b)[..|a + b| - 1] == a + init;
    }
  }

  ghost predicate Eligibles(candidates: seq<WindowCandidate>, i: nat, j: nat) {
    i < j < |candidates| && Eligible(candidates[i]) && Eligible(candidates[j])
  }

  lemma PairsAreExtended(candidates: seq<WindowCandidate>)
    requires candidates != []
    ensures var n := |candidates| - 1;
            var init := candidates[..n];
            (exists i: nat, j: nat :: Eligibles(candidates, i, j))
            <==> || (exists i: nat, j: nat :: Eligibles(init, i, j))
                 || (Eligible(candidates[n]) && exists i :: 0 <= i < n && Eligible(init[i]))
  {
    var n := |candidates| - 1;
    var init := candidates[..n];
    if i: nat, j: nat :| Eligibles(init, i, j) {
      assert Eligibles(candidates, i, j);
    }
    if i :| 0 <= i < n && Eligible(init[i]) {
      assert Eligible(candidates[n]) ==> Eligibles(candidates, i, n);
    }
    if i: nat, j: nat :| Eligibles(candidates, i, j) {
      assert j < n ==> Eligibles(init, i, j);
      assert Eligible(init[i]);
    }
  }

  lemma {:induction false} IdsAreEligible(candidates: seq<WindowCandidate>)
    ensures EligibleIds(candidates) == [] <==> forall i :: 0 <= i < |candidates| ==> !Eligible(candidates[i])
    ensures |EligibleIds(candidates)| == 1 ==>
              exists i :: 0 <= i < |candidates| && Eligible(candidates[i])
                          && [candidates[i].id] == EligibleIds(candidates)
    ensures 1 < |EligibleIds(candidates)| <==> exists i: nat, j: nat :: Eligibles(candidates, i, j)
  {
    if candidates != [] {
      var n := |candidates| - 1;
      var init := candidates[..n];
      IdsAreEligible(init);
      PairsAreExtended(candidates);
      if !Eligible(candidates[n]) {
        assert EligibleIds(candidates) == EligibleIds(init);
        if |EligibleIds(init)| == 1 {
          var i :| 0 <= i < n && Eligible(init[i]) && [init[i].id] == EligibleIds(init);
          assert Eligible(candidates[i]) && [candidates[i].id] == EligibleIds(candidates);
        }
      } else if EligibleIds(init) == [] {
        assert [candidates[n].id] == EligibleIds(candidates);
      }
    }
  }

  /** No choice if nothing is eligible, none if two windows are, and otherwise the one that is. */
  lemma ChoicesAreUnique(candidates: seq<WindowCandidate>)
    ensures var r := Choice(EligibleIds(candidates));
            && (r == Err(NoEligibleWindow) <==> forall i :: 0 <= i < |candidates| ==> !Eligible(candidates[i]))
            && (r == Err(AmbiguousWindows) <==> exists i: nat, j: nat :: Eligibles(candidates, i, j))
            && (r.Ok? ==>
                  exists i :: 0 <= i < |candidates| && Eligible(candidates[i]) && candidates[i].id == r.value)
  {
    IdsAreEligible(candidates);
  }

  /** Taking out a window takes out its identity. */
  lemma WithoutOne(b: seq<WindowCandidate>, w: WindowCandidate) returns (rest: seq<WindowCandidate>)
    requires w in b
    ensures |rest| < |b| && multiset(rest) == multiset(b) - multiset{w}
    ensures multiset(EligibleIds(b)) == multiset(EligibleIds(rest)) + multiset(EligibleIds([w]))
  {
    var k :| 0 <= k < |b| && b[k] == w;
    rest := b[..k] + b[k + 1..];
    assert b == b[..k] + [w] + b[k + 1..];
    CountsWithoutOne(b[..k], w, b[k + 1..]);
    IdsWithoutOne(b[..k], w, b[k + 1..]);
  }

  lemma CountsWithoutOne(left: seq<WindowCandidate>, w: WindowCandidate, right: seq<WindowCandidate>)
    ensures multiset(left + right) == multiset(left + [w] + right) - multiset{w}
  {
    assert multiset(left + [w] + right) == multiset(left + right) + multiset{w};
  }

  lemma IdsWithoutOne(left: seq<WindowCandidate>, w: WindowCandidate, right: seq<WindowCandidate>)
    ensures multiset(EligibleIds(left + [w] + right))
            == multiset(EligibleIds(left + right)) + multiset(EligibleIds([w]))
  {
    var (before, own, after) := (EligibleIds(left), EligibleIds([w]), EligibleIds(right));
    assert EligibleIds(left + right) == before + after by {
      IdsConcatenate(left, right);
    }
    assert EligibleIds(left + [w] + right) == before + own + after by {
      IdsConcatenate(left, [w]);
      IdsConcatenate(left + [w], right);
    }
  }

  lemma {:induction false} SameWindowsSameIds(a: seq<WindowCandidate>, b: seq<WindowCandidate>)
    requires multiset(a) == multiset(b)
    ensures multiset(EligibleIds(a)) == multiset(EligibleIds(b))
    decreases |a|
  {
    if a == [] {
      assert |multiset(b)| == 0;
    } else {
      var w := a[0];
      assert w in multiset(b);
      var fewer := WithoutOne(a, w);
      var others := WithoutOne(b, w);
      SameWindowsSameIds(fewer, others);
    }
  }

  /** The order in which the system enumerates its windows is irrelevant. */
  lemma EnumerationOrderIsIrrelevant(a: seq<WindowCandidate>, b: seq<WindowCandidate>)
    requires multiset(a) == multiset(b)
    ensures Choice(EligibleIds(a)) == Choice(EligibleIds(b))
  {
    SameWindowsSameIds(a, b);
    var (ids, others) := (EligibleIds(a), EligibleIds(b));
    assert |ids| == |multiset(ids)| == |multiset(others)| == |others|;
    if |ids| == 1 {
      assert ids[0] in multiset(others);
    }
  }

  class FocusedWindowEpoch {
    var activeWindow: Option<U64>

    constructor ()
      ensures activeWindow == None
    {
      activeWindow := None;
    }

    /** A direct switch between two windows passes through one sample without focus. */
    method Observe(candidate: Option<(U64, InputSnapshot)>) returns (s: InputSnapshot)
      modifies this
      ensures (activeWindow, s) == Observed(old(activeWindow), candidate)
    {
      if candidate.None? {
        activeWindow := None;
        return UNFOCUSED;
      }
      var (window, snapshot) := candidate.value;
      if window == 0 || !snapshot.focused {
        activeWindow := None;
        return UNFOCUSED;
      }
      var switched := activeWindow.Some? && activeWindow.value != window;
      activeWindow := Some(window);
      return if switched then UNFOCUSED else snapshot;
    }
  }

  /** A candidate counts when it names a window that has the focus. */
  predicate Focused(candidate: Option<(U64, InputSnapshot)>) {
    candidate.Some? && candidate.value.0 != 0 && candidate.value.1.focused
  }

  function Observed(active: Option<U64>, candidate: Option<(U64, InputSnapshot)>): (Option<U64>, InputSnapshot) {
    if !Focused(candidate) then (None, UNFOCUSED)
    else (Some(candidate.value.0),
          if active in {None, Some(candidate.value.0)} then candidate.value.1 else UNFOCUSED)
  }
}
