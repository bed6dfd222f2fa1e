/** What a finished scan returns, for every schedule: merging, sorting and truncating the workers' results,
    compared with one sequential pass over the same positions. */
module ScanResult {
  import opened Numbers
  import opened ScanProtocol
  import opened Sums
  import M = Memory
  import Plan = ScanPlan

  /** The workers' results in the order the workers are joined. */
  function Merged(ws: seq<Worker>): seq<Item> {
    if ws == [] then [] else Merged(ws[..|ws| - 1]) + ws[|ws| - 1].found
  }

  function Evaluated(ws: seq<Worker>): seq<Item> {
    if ws == [] then [] else Evaluated(ws[..|ws| - 1]) + ws[|ws| - 1].seen
  }

  predicate Failed(w: Worker) {
    HasFailed(w) == 1
  }

  /** A worker's error is passed on to the caller instead of any result. */
  ghost predicate ReturnsError(s: State) {
    exists i :: 0 <= i < |s.workers| && Failed(s.workers[i])
  }

  ghost predicate Sorted(items: seq<Item>) {
    forall i, j :: 0 <= i < j < |items| ==> items[i].address <= items[j].address
  }

  /** Every address once, in order. */
  ghost predicate StrictlySorted(items: seq<Item>) {
    forall i, j :: 0 <= i < j < |items| ==> items[i].address < items[j].address
  }

  /** `result` is what sorting the merged results in any way and truncating them can give. */
  ghost predicate Returned(c: Config, s: State, result: seq<Item>) {
    exists sorted: seq<Item> :: SortedAndTruncated(c, s, sorted, result)
  }

  ghost predicate SortedAndTruncated(c: Config, s: State, sorted: seq<Item>, result: seq<Item>) {
    && multiset(sorted) == multiset(Merged(s.workers)) && Sorted(sorted)
    && result == if |sorted| <= c.maxResults then sorted else sorted[..c.maxResults]
  }

  // Counting

  lemma {:induction false} HitsCount(items: seq<Item>, x: Item)
    ensures multiset(HitsOf(items))[x] == if x.outcome.Hit? then multiset(items)[x] else 0
  {
    if items != [] {
      var n := |items| - 1;
      HitsCount(items[..n], x);
      assert items == items[..n] + [items[n]];
      CountOfConcat(items[..n], [items[n]], x);
      CountOfConcat(HitsOf(items[..n]), if items[n].outcome.Hit? then [items[n]] else [], x);
    }
  }

  lemma {:induction false} HitsOfConcat(a: seq<Item>, b: seq<Item>)
    ensures HitsOf(a + b) == HitsOf(a) + HitsOf(b)
    decreases |b|
  {
    if b == [] {
      assert a + b == a;
    } else {
      var n := |b| - 1;
      HitsOfConcat(a, b[..n]);
      assert a + b == (a + b[..n]) + [b[n]];
      HitsOfOneMore(a + b[..n], b[n]);
    }
  }

  /** A worker that is gone has nothing to come and nothing in hand. */
  lemma ExitedCounts(w: Worker, x: Item)
    requires w.pc.Exited?
    ensures Owned(w, x) == multiset(w.seen)[x] && KeptTimes(w, x) == multiset(w.found)[x]
  {
    assert Kept(w) == w.found;
  }

  lemma {:induction false} EvaluatedSum(ws: seq<Worker>, x: Item)
    requires forall i | 0 <= i < |ws| :: ws[i].pc.Exited?
    ensures Sum(ws, w => Owned(w, x)) == multiset(Evaluated(ws))[x]
  {
    if ws != [] {
      var init, last := ws[..|ws| - 1], ws[|ws| - 1];
      EvaluatedSum(init, x);
      assert Owned(last, x) == multiset(last.seen)[x] by {
        ExitedCounts(last, x);
      }
      assert multiset(Evaluated(ws))[x] == multiset(Evaluated(init))[x] + multiset(last.seen)[x] by {
        CountOfConcat(Evaluated(init), last.seen, x);
      }
    }
  }

  lemma {:induction false} MergedSum(ws: seq<Worker>, x: Item)
    requires forall i | 0 <= i < |ws| :: ws[i].pc.Exited?
    ensures Sum(ws, w => KeptTimes(w, x)) == multiset(Merged(ws))[x]
  {
    if ws != [] {
      var init, last := ws[..|ws| - 1], ws[|ws| - 1];
      MergedSum(init, x);
      assert KeptTimes(last, x) == multiset(last.found)[x] by {
        ExitedCounts(last, x);
      }
      assert multiset(Merged(ws))[x] == multiset(Merged(init))[x] + multiset(last.found)[x] by {
        CountOfConcat(Merged(init), last.found, x);
      }
    }
  }

  lemma {:induction false} HitsSum(ws: seq<Worker>, x: Item)
    ensures Sum(ws, w => HitTimes(w, x)) == multiset(HitsOf(Evaluated(ws)))[x]
  {
    if ws != [] {
      var n := |ws| - 1;
      HitsSum(ws[..n], x);
      HitsOfConcat(Evaluated(ws[..n]), ws[n].seen);
    }
  }

  /** The sums over finished workers are counts of the merged sequences. */
  lemma SumsOfFinished(ws: seq<Worker>, x: Item)
    requires forall i | 0 <= i < |ws| :: ws[i].pc.Exited?
    ensures Sum(ws, w => Owned(w, x)) == multiset(Evaluated(ws))[x]
    ensures Sum(ws, w => KeptTimes(w, x)) == multiset(Merged(ws))[x]
    ensures Sum(ws, w => HitTimes(w, x)) == multiset(HitsOf(Evaluated(ws)))[x]
  {
    EvaluatedSum(ws, x);
    MergedSum(ws, x);
    HitsSum(ws, x);
  }

  lemma {:induction false} SizesOfFinished(ws: seq<Worker>)
    requires forall i | 0 <= i < |ws| :: ws[i].pc.Exited?
    ensures Sum(ws, Granted) == |Merged(ws)|
    ensures Sum(ws, Hits) == |HitsOf(Evaluated(ws))|
    ensures Sum(ws, Unreserved) == 0
    ensures (forall i | 0 <= i < |ws| :: Tidy(ws[i])) ==> Sum(ws, Unpublished) == 0
  {
    if ws != [] {
      var n := |ws| - 1;
      SizesOfFinished(ws[..n]);
      HitsOfConcat(Evaluated(ws[..n]), ws[n].seen);
    }
  }

  lemma SizesAreMonotone<T>(a: multiset<T>, b: multiset<T>)
    requires a <= b
    ensures |a| <= |b| && (|a| == |b| ==> a == b)
  {
    assert b == a + (b - a);
  }

  lemma {:induction false} FlatHasPrefix(batches: seq<Batch>, n: nat, x: Item)
    requires n <= |batches|
    ensures multiset(Flat(batches[..n]))[x] <= multiset(Flat(batches))[x]
    ensures BatchBytes(batches[..n]) <= BatchBytes(batches)
    decreases |batches| - n
  {
    if n < |batches| {
      FlatHasPrefix(batches, n + 1, x);
      assert batches[..n + 1][..n] == batches[..n];
    } else {
      assert batches[..n] == batches;
    }
  }

  // Faults

  /** A worker fails exactly when it has evaluated a position that cannot be decoded or compared. */
  ghost predicate FailsOnFaults(w: Worker) {
    Failed(w) <==> exists k :: 0 <= k < |w.seen| && w.seen[k].outcome.Fault?
  }

  lemma WorkersFailOnFaults(c: Config, s: State, w: Worker, e: Event)
    requires !e.Cancel? && e.i < |s.workers| && w == s.workers[e.i] && Enabled(c, s, e) && FailsOnFaults(w)
    ensures FailsOnFaults(Act(c, s, w, e).worker)
  {
    var d := Act(c, s, w, e).worker;
    if e.Look? && d.seen != w.seen {
      assert d.seen == w.seen + [Rest(w)[0]];
      assert d.seen[|w.seen|] == Rest(w)[0];
      assert forall k :: 0 <= k < |w.seen| ==> d.seen[k] == w.seen[k];
    }
  }

  lemma {:induction false} RunsFailOnFaults(c: Config, events: seq<Event>)
    requires Run(c, events).Some?
    ensures forall i | 0 <= i < |Run(c, events).value.workers| :: FailsOnFaults(Run(c, events).value.workers[i])
  {
    if events != [] {
      var init, e := events[..|events| - 1], events[|events| - 1];
      RunsFailOnFaults(c, init);
      if !e.Cancel? {
        var s := Run(c, init).value;
        WorkersFailOnFaults(c, s, s.workers[e.i], e);
      }
    }
  }

  lemma {:induction false} SomeoneFailed(ws: seq<Worker>)
    ensures 0 < Sum(ws, HasFailed) <==> exists i :: 0 <= i < |ws| && Failed(ws[i])
  {
    if ws != [] {
      var n := |ws| - 1;
      SomeoneFailed(ws[..n]);
      if i :| 0 <= i < n && Failed(ws[..n][i]) {
        assert Failed(ws[i]);
      }
      if i :| 0 <= i < |ws| && Failed(ws[i]) {
        assert i < n ==> Failed(ws[..n][i]);
      }
    }
  }

  lemma {:induction false} SeenIsEvaluated(ws: seq<Worker>, x: Item)
    ensures x in Evaluated(ws) <==> exists i :: 0 <= i < |ws| && x in ws[i].seen
  {
    if ws != [] {
      var n := |ws| - 1;
      SeenIsEvaluated(ws[..n], x);
      assert forall i :: 0 <= i < n ==> ws[..n][i] == ws[i];
    }
  }

  /** The caller gets an error exactly when some worker evaluated a faulty position. */
  lemma ErrorsComeFromFaults(c: Config, events: seq<Event>)
    requires Run(c, events).Some?
    ensures var s := Run(c, events).value;
            ReturnsError(s) <==> exists x :: x in Evaluated(s.workers) && x.outcome.Fault?
  {
    var s := Run(c, events).value;
    RunsFailOnFaults(c, events);
    if i :| 0 <= i < |s.workers| && Failed(s.workers[i]) {
      var k :| 0 <= k < |s.workers[i].seen| && s.workers[i].seen[k].outcome.Fault?;
      SeenIsEvaluated(s.workers, s.workers[i].seen[k]);
    }
    if x :| x in Evaluated(s.workers) && x.outcome.Fault? {
      SeenIsEvaluated(s.workers, x);
      var i :| 0 <= i < |s.workers| && x in s.workers[i].seen;
      assert FailsOnFaults(s.workers[i]);
    }
  }

  // Every schedule

  /** What is evaluated is part of the work, and each unit of work at most once. */
  lemma EvaluatedIsWork(c: Config, events: seq<Event>)
    requires Run(c, events).Some? && Finished(Run(c, events).value)
    ensures multiset(Evaluated(Run(c, events).value.workers)) <= multiset(Flat(c.batches))
  {
    var s := Run(c, events).value;
    forall x: Item ensures multiset(Evaluated(s.workers))[x] <= multiset(Flat(c.batches))[x] {
      RunsFollow(c, events, x);
      SumsOfFinished(s.workers, x);
      FlatHasPrefix(c.batches, |Claimed(c, s)|, x);
    }
  }

  lemma MergedAreHits(c: Config, events: seq<Event>)
    requires Run(c, events).Some? && Finished(Run(c, events).value)
    ensures multiset(Merged(Run(c, events).value.workers)) <= multiset(HitsOf(Evaluated(Run(c, events).value.workers)))
  {
    var s := Run(c, events).value;
    forall x: Item ensures multiset(Merged(s.workers))[x] <= multiset(HitsOf(Evaluated(s.workers)))[x] {
      RunsFollow(c, events, x);
      SumsOfFinished(s.workers, x);
    }
  }

  lemma HitsAreMonotone(a: seq<Item>, b: seq<Item>)
    requires multiset(a) <= multiset(b)
    ensures multiset(HitsOf(a)) <= multiset(HitsOf(b)) && |HitsOf(a)| <= |HitsOf(b)|
  {
    forall x: Item ensures multiset(HitsOf(a))[x] <= multiset(HitsOf(b))[x] {
      HitsCount(a, x);
      HitsCount(b, x);
    }
    SizesAreMonotone(multiset(HitsOf(a)), multiset(HitsOf(b)));
  }

  /** The counts of a finished run. */
  lemma FinishedCounts(c: Config, events: seq<Event>)
    requires 0 < c.maxResults && Run(c, events).Some? && Finished(Run(c, events).value)
    ensures var s := Run(c, events).value;
            var hits := |HitsOf(Evaluated(s.workers))|;
            && |Merged(s.workers)| == (if hits < c.maxResults then hits else c.maxResults)
            && (s.truncated <==> c.maxResults <= hits) && (s.stop <==> s.truncated)
            && s.bytes + s.lost == BatchBytes(Claimed(c, s))
  {
    RunsSatisfyInv(c, events);
    SizesOfFinished(Run(c, events).value.workers);
  }

  /** Whatever happens, results are genuine hits, none twice, at most as many as asked for; the limit is
      reported only when it was really reached; and no byte is counted twice. */
  lemma ResultsAreGenuine(c: Config, events: seq<Event>)
    requires 0 < c.maxResults && Run(c, events).Some? && Finished(Run(c, events).value)
    ensures var s := Run(c, events).value;
            && multiset(Merged(s.workers)) <= multiset(HitsOf(Flat(c.batches)))
            && |Merged(s.workers)| <= c.maxResults
            && (s.truncated ==> |Merged(s.workers)| == c.maxResults <= |HitsOf(Flat(c.batches))|)
            && s.bytes <= BatchBytes(c.batches)
  {
    var s := Run(c, events).value;
    EvaluatedIsWork(c, events);
    MergedAreHits(c, events);
    HitsAreMonotone(Evaluated(s.workers), Flat(c.batches));
    FinishedCounts(c, events);
    FlatHasPrefix(c.batches, |Claimed(c, s)|, Item(0, [], None, Miss, 0));
  }

  /** Without a stop, a cancellation or an error, every unit of work is evaluated exactly once. */
  lemma NothingIsSkipped(c: Config, events: seq<Event>)
    requires 0 < c.maxResults && 0 < c.workers && Run(c, events).Some? && Finished(Run(c, events).value)
    requires !Halted(Run(c, events).value) && !ReturnsError(Run(c, events).value)
    ensures var s := Run(c, events).value;
            multiset(Evaluated(s.workers)) == multiset(Flat(c.batches)) && s.bytes == BatchBytes(c.batches)
  {
    var s := Run(c, events).value;
    RunsSatisfyInv(c, events);
    SomeoneFailed(s.workers);
    assert Leaves(s.workers[0]) by {
      assert !Failed(s.workers[0]);
    }
    assert Claimed(c, s) == c.batches;
    forall x: Item ensures multiset(Evaluated(s.workers))[x] == multiset(Flat(c.batches))[x] {
      RunsFollow(c, events, x);
      SumsOfFinished(s.workers, x);
    }
    FinishedCounts(c, events);
  }

  /** An uncancelled scan without an error returns as many hits as there are, up to the limit, and says so. */
  lemma ResultsAreComplete(c: Config, events: seq<Event>)
    requires 0 < c.maxResults && 0 < c.workers && Run(c, events).Some? && Finished(Run(c, events).value)
    requires !Run(c, events).value.cancelled && !ReturnsError(Run(c, events).value)
    ensures var s, hits := Run(c, events).value, |HitsOf(Flat(c.batches))|;
            && |Merged(s.workers)| == (if hits < c.maxResults then hits else c.maxResults)
            && (s.truncated <==> c.maxResults <= hits)
            && (!s.truncated ==> multiset(Merged(s.workers)) == multiset(HitsOf(Flat(c.batches))))
  {
    var s := Run(c, events).value;
    FinishedCounts(c, events);
    EvaluatedIsWork(c, events);
    HitsAreMonotone(Evaluated(s.workers), Flat(c.batches));
    if !s.truncated {
      NothingIsSkipped(c, events);
      HitsAreMonotone(Flat(c.batches), Evaluated(s.workers));
      MergedAreHits(c, events);
      SizesAreMonotone(multiset(Merged(s.workers)), multiset(HitsOf(Evaluated(s.workers))));
    }
  }

  lemma SameElements(a: seq<Item>, b: seq<Item>, x: Item)
    requires multiset(a) == multiset(b)
    ensures x in a <==> x in b
  {
    assert x in a <==> x in multiset(a);
    assert x in b <==> x in multiset(b);
  }

  lemma SortedLast(a: seq<Item>, b: seq<Item>)
    requires StrictlySorted(a) && Sorted(b) && a != [] && b != [] && multiset(a) == multiset(b)
    ensures a[|a| - 1] == b[|b| - 1]
  {
    var x, y := a[|a| - 1], b[|b| - 1];
    SameElements(a, b, x);
    SameElements(a, b, y);
    var i :| 0 <= i < |b| && b[i] == x;
    var j :| 0 <= j < |a| && a[j] == y;
  }

  lemma WithoutLast(a: seq<Item>)
    requires a != []
    ensures multiset(a[..|a| - 1]) == multiset(a) - multiset{a[|a| - 1]}
  {
    assert a == a[..|a| - 1] + [a[|a| - 1]];
  }

  lemma SameSize(a: seq<Item>, b: seq<Item>)
    requires multiset(a) == multiset(b)
    ensures |a| == |b|
  {
    assert |a| == |multiset(a)| == |multiset(b)| == |b|;
  }

  /** A sequence sorted strictly is the only sorted arrangement of its elements. */
  lemma {:induction false} SortedIsUnique(a: seq<Item>, b: seq<Item>)
    requires StrictlySorted(a) && Sorted(b) && multiset(a) == multiset(b)
    ensures a == b
    decreases |a|
  {
    SameSize(a, b);
    if a != [] {
      var n := |a| - 1;
      SortedLast(a, b);
      WithoutLast(a);
      WithoutLast(b);
      SortedIsUnique(a[..n], b[..n]);
      assert a == a[..n] + [a[n]] && b == b[..n] + [b[n]];
    }
  }

  lemma {:induction false} HitsOfSorted(items: seq<Item>)
    requires StrictlySorted(items)
    ensures StrictlySorted(HitsOf(items))
    ensures forall i :: 0 <= i < |HitsOf(items)| ==> HitsOf(items)[i] in items
  {
    if items != [] {
      var n := |items| - 1;
      HitsOfSorted(items[..n]);
      assert forall i :: 0 <= i < |HitsOf(items[..n])| ==> HitsOf(items[..n])[i] in items[..n];
    }
  }

  /** Every schedule of every number of workers returns what one sequential pass returns. */
  lemma EveryScheduleIsTheSequentialScan(c: Config, events: seq<Event>, result: seq<Item>)
    requires 0 < c.maxResults && 0 < c.workers && Run(c, events).Some? && Finished(Run(c, events).value)
    requires !Halted(Run(c, events).value) && !ReturnsError(Run(c, events).value)
    requires StrictlySorted(Flat(c.batches))
    requires Returned(c, Run(c, events).value, result)
    ensures result == HitsOf(Flat(c.batches))
  {
    var s := Run(c, events).value;
    var sorted: seq<Item> :| SortedAndTruncated(c, s, sorted, result);
    FinishedCounts(c, events);
    ResultsAreComplete(c, events);
    HitsOfSorted(Flat(c.batches));
    SortedIsUnique(HitsOf(Flat(c.batches)), sorted);
  }
}
