/** The bounded breadth-first search for pointer chains that end at an address. */
module PointerSearch {
  import opened Numbers
  import opened Memory
  import opened RegionScan
  import opened PointerChains

  datatype Path = Path(root: U64, offsets: seq<int>)

  /** A queued address, with the offsets that lead from it to the target. */
  datatype Entry = Entry(address: U64, suffix: seq<int>, depth: nat)

  datatype Search = Search(queue: seq<Entry>, visited: set<nat>, results: seq<Path>)

  // Chains

  /** A chain of links that were found one by one, from `root` to the target. */
  ghost predicate Linked(p: Problem, root: nat, offsets: seq<int>)
    requires Searchable(p)
    decreases |offsets|
  {
    if offsets == [] then root == p.target
    else exists b: U64 :: root in Predecessors(p, b) && offsets[0] == Offset(p, root, b) && Linked(p, b, offsets[1..])
  }

  predicate OffsetsInRange(p: Problem, offsets: seq<int>) {
    forall i :: 0 <= i < |offsets| ==> 0 <= offsets[i] <= p.maxOffset && offsets[i] <= MAX_I64
  }

  /** Following the offsets from `root` through memory ends exactly at the target. */
  predicate EndsAtTarget(p: Problem, root: U64, offsets: seq<int>)
    requires Searchable(p)
  {
    var r := Follow(p.memory, root, offsets, p.pointerSize);
    r.Ok? && r.value.final == p.target
  }

  lemma {:induction false} LinkedChainsResolve(p: Problem, root: U64, offsets: seq<int>)
    requires Searchable(p) && Linked(p, root, offsets)
    ensures OffsetsInRange(p, offsets) && EndsAtTarget(p, root, offsets)
    decreases |offsets|
  {
    if offsets != [] {
      var b: U64 :| root in Predecessors(p, b) && offsets[0] == Offset(p, root, b) && Linked(p, b, offsets[1..]);
      PredecessorsLead(p, root, b);
      LinkedChainsResolve(p, b, offsets[1..]);
      assert forall i :: 1 <= i < |offsets| ==> offsets[i] == offsets[1..][i - 1];
    }
  }

  predicate DepthFits(p: Problem, e: Entry) {
    |e.suffix| == e.depth <= p.maxDepth
  }

  ghost predicate SoundPath(p: Problem, path: Path)
    requires Searchable(p)
  {
    1 <= |path.offsets| <= p.maxDepth && Linked(p, path.root, path.offsets)
  }

  lemma OneMoreLink(p: Problem, a: U64, e: Entry)
    requires Searchable(p) && Linked(p, e.address, e.suffix) && a in Predecessors(p, e.address)
    ensures Linked(p, a, [Offset(p, a, e.address)] + e.suffix)
  {
  }

  // What the search keeps

  ghost predicate Sound(p: Problem, entries: seq<Entry>, results: seq<Path>)
    requires Searchable(p)
  {
    && (forall i :: 0 <= i < |entries| ==> DepthFits(p, entries[i]) && Linked(p, entries[i].address, entries[i].suffix))
    && (forall i :: 0 <= i < |results| ==> SoundPath(p, results[i]))
  }

  /** Entries are queued, and paths found, in order of depth; none is deeper than `reach`. */
  ghost predicate Ordered(entries: seq<Entry>, results: seq<Path>, reach: nat) {
    && (forall i, j :: 0 <= i < j < |entries| ==> entries[i].depth <= entries[j].depth)
    && (forall i :: 0 <= i < |entries| ==> entries[i].depth <= reach)
    && (forall i, j :: 0 <= i < j < |results| ==> |results[i].offsets| <= |results[j].offsets|)
    && (forall i :: 0 <= i < |results| ==> |results[i].offsets| <= reach)
  }

  ghost predicate HasEntry(entries: seq<Entry>, address: nat, depth: nat) {
    exists i :: 0 <= i < |entries| && entries[i].address == address && entries[i].depth <= depth
  }

  ghost predicate HasPath(results: seq<Path>, root: nat, length: nat) {
    exists i :: 0 <= i < |results| && results[i].root == root && |results[i].offsets| <= length
  }

  /** Every root found has been queued, no deeper than its paths are long. */
  ghost predicate RootsAreQueued(entries: seq<Entry>, results: seq<Path>) {
    forall i :: 0 <= i < |results| ==> HasEntry(entries, results[i].root, |results[i].offsets|)
  }

  /** The first links of an entry have been found. */
  ghost predicate LinksFound(p: Problem, e: Entry, upTo: nat, results: seq<Path>)
    requires Searchable(p)
  {
    forall k :: 0 <= k < upTo && k < |Predecessors(p, e.address)| ==>
      HasPath(results, Predecessors(p, e.address)[k], e.depth + 1)
  }

  ghost predicate AllLinksFound(p: Problem, e: Entry, results: seq<Path>)
    requires Searchable(p)
  {
    LinksFound(p, e, |Predecessors(p, e.address)|, results)
  }

  /** Every entry taken from the queue has been followed up, as far as the depth allows. */
  ghost predicate FollowedUp(p: Problem, entries: seq<Entry>, done: nat, results: seq<Path>)
    requires Searchable(p)
  {
    forall i :: 0 <= i < done && i < |entries| && entries[i].depth < p.maxDepth ==>
        AllLinksFound(p, entries[i], results)
  }

  ghost predicate VisitedAreQueued(p: Problem, entries: seq<Entry>, visited: set<nat>) {
    && (forall a | a in visited :: exists i :: 0 <= i < |entries| && entries[i].address == a)
    && visited <= p.memory.Keys + {p.target}
  }

  /** The first `done` entries have left the queue, and `followed` of them are followed up. The last two
      parts hold only while there is room for more results. */
  ghost predicate Inv(p: Problem, entries: seq<Entry>, done: nat, followed: nat, s: Search, reach: nat)
    requires Searchable(p)
  {
    && done <= |entries| && s.queue == entries[done..]
    && HasEntry(entries, p.target, 0)
    && Sound(p, entries, s.results) && Ordered(entries, s.results, reach)
    && VisitedAreQueued(p, entries, s.visited)
    && |s.results| <= p.maxResults
    && (|s.results| < p.maxResults ==>
          RootsAreQueued(entries, s.results) && FollowedUp(p, entries, followed, s.results))
  }

  // Nothing is lost when paths and entries are added

  lemma EntriesStay(entries: seq<Entry>, more: seq<Entry>, address: nat, depth: nat)
    requires HasEntry(entries, address, depth)
    ensures HasEntry(entries + more, address, depth)
  {
    var i :| 0 <= i < |entries| && entries[i].address == address && entries[i].depth <= depth;
    assert (entries + more)[i] == entries[i];
  }

  lemma PathsStay(results: seq<Path>, path: Path, root: nat, length: nat)
    requires HasPath(results, root, length)
    ensures HasPath(results + [path], root, length)
  {
    var i :| 0 <= i < |results| && results[i].root == root && |results[i].offsets| <= length;
    assert (results + [path])[i] == results[i];
  }

  lemma RootsStayQueued(entries: seq<Entry>, more: seq<Entry>, results: seq<Path>, path: Path)
    requires RootsAreQueued(entries, results) && HasEntry(entries + more, path.root, |path.offsets|)
    ensures RootsAreQueued(entries + more, results + [path])
  {
    forall i | 0 <= i < |results| ensures HasEntry(entries + more, results[i].root, |results[i].offsets|) {
      EntriesStay(entries, more, results[i].root, |results[i].offsets|);
    }
  }

  lemma LinksStay(p: Problem, e: Entry, upTo: nat, results: seq<Path>, path: Path)
    requires Searchable(p) && LinksFound(p, e, upTo, results)
    ensures LinksFound(p, e, upTo, results + [path])
  {
    forall k | 0 <= k < upTo && k < |Predecessors(p, e.address)|
      ensures HasPath(results + [path], Predecessors(p, e.address)[k], e.depth + 1)
    {
      PathsStay(results, path, Predecessors(p, e.address)[k], e.depth + 1);
    }
  }

  lemma FollowedUpStays(p: Problem, entries: seq<Entry>, followed: nat, more: seq<Entry>, results: seq<Path>,
      path: Path)
    requires Searchable(p) && followed <= |entries| && FollowedUp(p, entries, followed, results)
    ensures FollowedUp(p, entries + more, followed, results + [path])
  {
    forall i | 0 <= i < followed && (entries + more)[i].depth < p.maxDepth
      ensures AllLinksFound(p, (entries + more)[i], results + [path])
    {
      assert (entries + more)[i] == entries[i];
      LinksStay(p, entries[i], |Predecessors(p, entries[i].address)|, results, path);
    }
  }

  lemma VisitedStayQueued(p: Problem, entries: seq<Entry>, e: Entry, visited: set<nat>)
    requires VisitedAreQueued(p, entries, visited) && e.address in p.memory.Keys
    ensures VisitedAreQueued(p, entries + [e], visited + {e.address})
  {
    forall a | a in visited + {e.address}
      ensures exists i :: 0 <= i < |entries + [e]| && (entries + [e])[i].address == a
    {
      if a in visited {
        var i :| 0 <= i < |entries| && entries[i].address == a;
        assert (entries + [e])[i] == entries[i];
      } else {
        assert (entries + [e])[|entries|] == e;
      }
    }
  }

  /** A path is added to the results, and `more`, at most one entry, to the queue. */
  lemma AddingKeepsInv(p: Problem, entries: seq<Entry>, done: nat, followed: nat, s: Search, reach: nat,
                       path: Path, more: seq<Entry>, visited: set<nat>)
    requires Searchable(p) && Inv(p, entries, done, followed, s, reach) && followed <= |entries|
    requires |s.results| < p.maxResults && |path.offsets| == reach && SoundPath(p, path)
    requires more == [] || more == [Entry(path.root, path.offsets, reach)]
    requires VisitedAreQueued(p, entries + more, visited)
    requires |s.results| + 1 < p.maxResults ==> HasEntry(entries + more, path.root, |path.offsets|)
    ensures Inv(p, entries + more, done, followed, Search(s.queue + more, visited, s.results + [path]), reach)
  {
    assert (entries + more)[done..] == entries[done..] + more;
    EntriesStay(entries, more, p.target, 0);
    if |s.results| + 1 < p.maxResults {
      RootsStayQueued(entries, more, s.results, path);
      FollowedUpStays(p, entries, followed, more, s.results, path);
    }
  }

  /** One link: its path is kept, and its address queued if it is new and there is room for more paths. */
  method Visit(p: Problem, e: Entry, a: U64, offset: int, s: Search, ghost entries: seq<Entry>, ghost done: nat,
      ghost followed: nat)
    returns (t: Search, ghost after: seq<Entry>)
    requires Searchable(p) && Inv(p, entries, done, followed, s, e.depth + 1) && followed <= |entries|
    requires |s.results| < p.maxResults && DepthFits(p, e) && e.depth < p.maxDepth && Linked(p, e.address, e.suffix)
    requires a in Predecessors(p, e.address) && offset == Offset(p, a, e.address)
    ensures Inv(p, after, done, followed, t, e.depth + 1) && entries <= after
    ensures t.results == s.results + [Path(a, [offset] + e.suffix)]
    ensures (t.queue == s.queue && t.visited == s.visited) || s.visited < t.visited
  {
    var path := Path(a, [offset] + e.suffix);
    assert SoundPath(p, path) by {
      OneMoreLink(p, a, e);
    }
    if p.maxResults <= |s.results| + 1 || a in s.visited {
      assert entries + [] == entries && s.queue + [] == s.queue;
      AddingKeepsInv(p, entries, done, followed, s, e.depth + 1, path, [], s.visited);
      return s.(results := s.results + [path]), entries;
    }
    var entry := Entry(a, path.offsets, e.depth + 1);
    assert VisitedAreQueued(p, entries + [entry], s.visited + {a}) by {
      PredecessorsLead(p, a, e.address);
      VisitedStayQueued(p, entries, entry, s.visited);
    }
    assert (entries + [entry])[|entries|] == entry;
    AddingKeepsInv(p, entries, done, followed, s, e.depth + 1, path, [entry], s.visited + {a});
    return Search(s.queue + [entry], s.visited + {a}, s.results + [path]), entries + [entry];
  }

  lemma OneMoreLinkFound(p: Problem, e: Entry, i: nat, results: seq<Path>, path: Path)
    requires Searchable(p) && LinksFound(p, e, i, results) && |path.offsets| == e.depth + 1
    requires i < |Predecessors(p, e.address)| && path.root == Predecessors(p, e.address)[i]
    ensures LinksFound(p, e, i + 1, results + [path])
  {
    LinksStay(p, e, i, results, path);
    assert (results + [path])[|results|] == path;
  }

  lemma EntryIsFollowedUp(p: Problem, entries: seq<Entry>, done: nat, e: Entry, s: Search, reach: nat)
    requires Searchable(p) && 0 < done <= |entries| && entries[done - 1] == e
        && Inv(p, entries, done, done - 1, s, reach)
    requires |s.results| < p.maxResults ==> AllLinksFound(p, e, s.results)
    ensures Inv(p, entries, done, done, s, reach)
  {
    if |s.results| < p.maxResults {
      OneMoreFollowedUp(p, entries, done, s.results);
    }
  }

  lemma OneMoreFollowedUp(p: Problem, entries: seq<Entry>, done: nat, results: seq<Path>)
    requires Searchable(p) && 0 < done <= |entries| && FollowedUp(p, entries, done - 1, results)
    requires AllLinksFound(p, entries[done - 1], results)
    ensures FollowedUp(p, entries, done, results)
  {
  }

  /** All links of one entry, or as many as there is room for. */
  method FollowUp(p: Problem, e: Entry, candidates: seq<(U64, int)>, s: Search, ghost entries: seq<Entry>,
      ghost done: nat)
    returns (t: Search, ghost after: seq<Entry>)
    requires Searchable(p) && 0 < done <= |entries| && Inv(p, entries, done, done - 1, s, e.depth + 1)
    requires e == entries[done - 1] && DepthFits(p, e) && Linked(p, e.address, e.suffix)
    requires |s.results| < p.maxResults && e.depth < p.maxDepth
    requires var found := Take(Predecessors(p, e.address), p.maxResults - |s.results|);
             |candidates| == |found| && forall i :: 0 <= i < |found| ==>
                 candidates[i] == (found[i], Offset(p, found[i], e.address))
    ensures Inv(p, after, done, done, t, e.depth + 1) && entries <= after
    ensures |t.results| == |s.results| + |candidates|
    ensures (t.queue == s.queue && t.visited == s.visited) || s.visited < t.visited
  {
    t, after := s, entries;
    ghost var links := Predecessors(p, e.address);
    for i := 0 to |candidates|
      invariant Inv(p, after, done, done - 1, t, e.depth + 1) && entries <= after
      invariant |t.results| == |s.results| + i < p.maxResults && LinksFound(p, e, i, t.results)
      invariant (t.queue == s.queue && t.visited == s.visited) || s.visited < t.visited
    {
      ghost var before := t.results;
      assert candidates[i] == (links[i], Offset(p, links[i], e.address));
      t, after := Visit(p, e, candidates[i].0, candidates[i].1, t, after, done, done - 1);
      OneMoreLinkFound(p, e, i, before, Path(candidates[i].0, [candidates[i].1] + e.suffix));
      if p.maxResults <= |t.results| {
        EntryIsFollowedUp(p, after, done, e, t, e.depth + 1);
        return;
      }
    }
    EntryIsFollowedUp(p, after, done, e, t, e.depth + 1);
  }

  lemma {:induction false} SubsetsAreSmaller(a: set<nat>, b: set<nat>)
    requires a <= b
    ensures |a| <= |b| && (a != b ==> |a| < |b|)
  {
    if a != {} {
      var x :| x in a;
      SubsetsAreSmaller(a - {x}, b - {x});
      assert a != b ==> a - {x} != b - {x} by {
        if a - {x} == b - {x} {
          assert a == (a - {x}) + {x} == (b - {x}) + {x} == b;
        }
      }
    }
  }

  /** The addresses the search has not queued yet. */
  ghost function Unvisited(p: Problem, visited: set<nat>): nat {
    |p.memory.Keys + {p.target} - visited|
  }

  lemma VisitingProgresses(p: Problem, before: set<nat>, after: set<nat>)
    requires before <= after <= p.memory.Keys + {p.target}
    ensures Unvisited(p, after) <= Unvisited(p, before)
    ensures before != after ==> Unvisited(p, after) < Unvisited(p, before)
  {
    var all := p.memory.Keys + {p.target};
    SubsetsAreSmaller(all - after, all - before);
    if all - after == all - before {
      assert after == all - (all - after) == all - (all - before) == before;
    }
  }

  lemma StartSatisfiesInv(p: Problem)
    requires Searchable(p)
    ensures var first := Entry(p.target, [], 0); Inv(p, [first], 0, 0, Search([first], {p.target}, []), 0)
  {
    var first := Entry(p.target, [], 0);
    assert [first][0] == first && [first][0..] == [first];
  }

  /** Taking the next entry from the queue; one that is too deep, or comes too late, is passed over. */
  lemma TakingKeepsInv(p: Problem, entries: seq<Entry>, done: nat, s: Search, reach: nat)
    requires Searchable(p) && Inv(p, entries, done, done, s, reach) && s.queue != [] && reach <= s.queue[0].depth + 1
    ensures done < |entries| && entries[done] == s.queue[0]
    ensures Inv(p, entries, done + 1, done, s.(queue := s.queue[1..]), s.queue[0].depth + 1)
    ensures p.maxDepth <= s.queue[0].depth || p.maxResults <= |s.results| ==>
              Inv(p, entries, done + 1, done + 1, s.(queue := s.queue[1..]), s.queue[0].depth + 1)
  {
  }

  /** After an entry, the next one is at least as deep. */
  lemma NextIsNoShallower(p: Problem, entries: seq<Entry>, done: nat, s: Search, depth: nat)
    requires Searchable(p) && 0 < done && Inv(p, entries, done, done, s, depth + 1) && entries[done - 1].depth == depth
    ensures s.queue != [] ==> depth <= s.queue[0].depth
  {
  }

  /** What the search returns: chains that lead to the target, shortest first, and all there are if there
      was room for all of them. */
  ghost predicate Complete(p: Problem, results: seq<Path>)
    requires Searchable(p)
  {
    forall root: nat, offsets: seq<int> :: 1 <= |offsets| <= p.maxDepth && Linked(p, root, offsets) ==>
      HasPath(results, root, |offsets|)
  }

  ghost predicate ShortestFirst(results: seq<Path>) {
    forall i, j :: 0 <= i < j < |results| ==> |results[i].offsets| <= |results[j].offsets|
  }

  /** A chain was found link by link, from the target outwards. */
  lemma {:induction false} ChainsAreFound(p: Problem, entries: seq<Entry>, results: seq<Path>, root: nat,
      offsets: seq<int>)
    requires Searchable(p) && HasEntry(entries, p.target, 0)
    requires RootsAreQueued(entries, results) && FollowedUp(p, entries, |entries|, results)
    requires |offsets| <= p.maxDepth && Linked(p, root, offsets)
    ensures HasEntry(entries, root, |offsets|)
    ensures offsets != [] ==> HasPath(results, root, |offsets|)
    decreases |offsets|
  {
    if offsets != [] {
      var b: U64 :| root in Predecessors(p, b) && offsets[0] == Offset(p, root, b) && Linked(p, b, offsets[1..]);
      ChainsAreFound(p, entries, results, b, offsets[1..]);
      var i :| 0 <= i < |entries| && entries[i].address == b && entries[i].depth <= |offsets| - 1;
      assert AllLinksFound(p, entries[i], results);
      var k :| 0 <= k < |Predecessors(p, b)| && Predecessors(p, b)[k] == root;
      assert HasPath(results, root, entries[i].depth + 1);
      var j :| 0 <= j < |results| && results[j].root == root && |results[j].offsets| <= entries[i].depth + 1;
      assert HasEntry(entries, results[j].root, |results[j].offsets|);
    }
  }

  lemma FinishedSearchIsComplete(p: Problem, entries: seq<Entry>, s: Search, reach: nat)
    requires Searchable(p) && Inv(p, entries, |entries|, |entries|, s, reach) && |s.results| < p.maxResults
    ensures Complete(p, s.results)
  {
    forall root: nat, offsets: seq<int> | 1 <= |offsets| <= p.maxDepth && Linked(p, root, offsets)
      ensures HasPath(s.results, root, |offsets|)
    {
      ChainsAreFound(p, entries, s.results, root, offsets);
    }
  }

  /** One entry that is not too deep, while there is room; no result is the overflow error. */
  method Next(p: Problem, s: Search, ghost entries: seq<Entry>, ghost done: nat, ghost reach: nat)
    returns (r: Option<Search>, ghost after: seq<Entry>)
    requires Searchable(p) && Inv(p, entries, done, done, s, reach) && s.queue != [] && reach <= s.queue[0].depth + 1
    requires s.queue[0].depth < p.maxDepth && |s.results| < p.maxResults
    ensures r.None? <==> Overflows(p) && |Predecessors(p, s.queue[0].address)| < p.maxResults - |s.results|
    ensures r.Some? && Overflows(p) ==> |r.value.results| == p.maxResults
    ensures r.Some? ==> done < |after| && after[done] == s.queue[0]
    ensures r.Some? ==> Inv(p, after, done + 1, done + 1, r.value, s.queue[0].depth + 1)
    ensures r.Some? ==> (r.value.queue == s.queue[1..] && r.value.visited == s.visited) || s.visited < r.value.visited
  {
    var e := s.queue[0];
    assert entries[done] == e && Inv(p, entries, done + 1, done, s.(queue := s.queue[1..]), e.depth + 1) by {
      TakingKeepsInv(p, entries, done, s, reach);
    }
    var candidates := ScanPointerPredecessors(p, e.address, p.maxResults - |s.results|);
    if candidates.None? {
      return None, entries;
    }
    var t;
    t, after := FollowUp(p, e, candidates.value, s.(queue := s.queue[1..]), entries, done + 1);
    return Some(t), after;
  }

  /** The next entry is followed up, and an overflow comes before its links fill the results. */
  ghost predicate OverflowsAtHead(p: Problem, s: Search)
    requires Searchable(p) && s.queue != []
  {
    && s.queue[0].depth < p.maxDepth && Overflows(p)
    && |s.results| + |Predecessors(p, s.queue[0].address)| < p.maxResults
  }

  /** What a turn makes of a search: the next entry is done with, the results are filled if a region overflows and
      the entry was followed up, and an address not visited before comes with every entry queued. */
  ghost predicate Turned(p: Problem, s: Search, t: Search, after: seq<Entry>, done: nat)
    requires Searchable(p) && s.queue != []
  {
    && (Overflows(p) && s.queue[0].depth < p.maxDepth ==> |t.results| == p.maxResults)
    && (|s.results| == p.maxResults ==> |t.results| == p.maxResults)
    && done < |after| && after[done] == s.queue[0]
    && Inv(p, after, done + 1, done + 1, t, s.queue[0].depth + 1)
    && ((t.queue == s.queue[1..] && t.visited == s.visited) || s.visited < t.visited)
  }

  /** One entry; one that is too deep, or comes when the results are full, is only taken from the queue. */
  method Turn(p: Problem, s: Search, ghost entries: seq<Entry>, ghost done: nat, ghost reach: nat)
    returns (r: Option<Search>, ghost after: seq<Entry>)
    requires Searchable(p) && Inv(p, entries, done, done, s, reach) && s.queue != [] && reach <= s.queue[0].depth + 1
    ensures r.None? <==> OverflowsAtHead(p, s)
    ensures r.Some? ==> Turned(p, s, r.value, after, done)
  {
    if p.maxDepth <= s.queue[0].depth || p.maxResults <= |s.results| {
      TakingKeepsInv(p, entries, done, s, reach);
      return Some(s.(queue := s.queue[1..])), entries;
    }
    r, after := Next(p, s, entries, done, reach);
  }

  /** Where the search stands: before the first turn at its start, and after it, if some region overflows, with
      the results filled by that turn. */
  ghost predicate Exploring(p: Problem, entries: seq<Entry>, done: nat, s: Search, reach: nat)
    requires Searchable(p)
  {
    && Inv(p, entries, done, done, s, reach) && (s.queue != [] ==> reach <= s.queue[0].depth + 1)
    && (done == 0 ==> s == Search([Entry(p.target, [], 0)], {p.target}, []))
    && (0 < done && Overflows(p) ==> |s.results| == p.maxResults <= |Predecessors(p, p.target)|)
  }

  /** Where there is an overflow, only the first turn finds room for results. */
  lemma OverflowsAtTheTarget(p: Problem, entries: seq<Entry>, done: nat, s: Search, reach: nat)
    requires Searchable(p) && Exploring(p, entries, done, s, reach) && s.queue != []
    ensures Overflows(p) && |s.results| < p.maxResults ==> s.queue[0] == Entry(p.target, [], 0) && s.results == []
    ensures Overflows(p) && p.maxResults <= |s.results| ==> p.maxResults <= |Predecessors(p, p.target)|
  {
  }

  lemma TurnKeepsExploring(p: Problem, entries: seq<Entry>, done: nat, s: Search, reach: nat, t: Search,
      after: seq<Entry>)
    requires Searchable(p) && Exploring(p, entries, done, s, reach) && s.queue != []
    requires !OverflowsAtHead(p, s) && Turned(p, s, t, after, done)
    ensures Exploring(p, after, done + 1, t, s.queue[0].depth + 1)
  {
    OverflowsAtTheTarget(p, entries, done, s, reach);
    NextIsNoShallower(p, after, done + 1, t, s.queue[0].depth);
  }

  /** A turn of the loop: the search goes on with less to visit or a shorter queue. */
  method Advance(p: Problem, s: Search, ghost entries: seq<Entry>, ghost done: nat, ghost reach: nat)
    returns (r: Option<Search>, ghost after: seq<Entry>)
    requires Searchable(p) && Exploring(p, entries, done, s, reach) && s.queue != []
    ensures r.None? ==> Overflows(p) && |Predecessors(p, p.target)| < p.maxResults
    ensures r.Some? ==> Exploring(p, after, done + 1, r.value, s.queue[0].depth + 1)
    ensures r.Some? ==> Unvisited(p, r.value.visited) <= Unvisited(p, s.visited)
    ensures r.Some? && |s.queue| <= |r.value.queue| ==> Unvisited(p, r.value.visited) < Unvisited(p, s.visited)
  {
    OverflowsAtTheTarget(p, entries, done, s, reach);
    r, after := Turn(p, s, entries, done, reach);
    if r.Some? {
      TurnKeepsExploring(p, entries, done, s, reach, r.value, after);
      VisitingProgresses(p, s.visited, r.value.visited);
    }
  }

  /** The search loop. It ends although the depth alone would allow exponentially many entries, because no
      address is queued twice. */
  method Explore(p: Problem) returns (r: Option<seq<Path>>)
    requires Searchable(p)
    ensures r.None? <==> Overflows(p) && |Predecessors(p, p.target)| < p.maxResults
    ensures r.Some? ==> Answers(p, r.value) && (Overflows(p) ==> |r.value| == p.maxResults)
  {
    ghost var entries, done: nat, reach: nat := [Entry(p.target, [], 0)], 0, 0;
    var s := Search([Entry(p.target, [], 0)], {p.target}, []);
    StartSatisfiesInv(p);
    while s.queue != []
      invariant Exploring(p, entries, done, s, reach)
      decreases Unvisited(p, s.visited), |s.queue|
    {
      var t;
      t, entries := Advance(p, s, entries, done, reach);
      if t.None? {
        return None;
      }
      done, reach := done + 1, s.queue[0].depth + 1;
      s := t.value;
    }
    EmptyQueueAnswers(p, entries, done, s, reach);
    return Some(s.results);
  }

  ghost predicate Answers(p: Problem, results: seq<Path>)
    requires Searchable(p)
  {
    && |results| <= p.maxResults && ShortestFirst(results)
        && (forall i :: 0 <= i < |results| ==> SoundPath(p, results[i]))
    && (|results| < p.maxResults ==> Complete(p, results))
  }

  lemma EmptyQueueAnswers(p: Problem, entries: seq<Entry>, done: nat, s: Search, reach: nat)
    requires Searchable(p) && Inv(p, entries, done, done, s, reach) && s.queue == []
    ensures Answers(p, s.results)
  {
    if |s.results| < p.maxResults {
      FinishedSearchIsComplete(p, entries, s, reach);
    }
  }

  method SearchPointerChains(p: Problem) returns (r: Result<seq<Path>, AnalysisError>)
    ensures r == Err(InvalidPointerSize) <==> !ValidPointerSize(p)
    ensures r == Err(InvalidLimit) <==> ValidPointerSize(p) && InvalidLimits(p)
    ensures r.Err? ==> r.error in {InvalidPointerSize, InvalidLimit, AddressOverflow}
    ensures r == Err(AddressOverflow)
            <==> Searchable(p) && Overflows(p) && |Predecessors(p, p.target)| < p.maxResults
    ensures r.Ok? ==> |r.value| <= p.maxResults && ShortestFirst(r.value)
    ensures r.Ok? ==> forall i :: 0 <= i < |r.value| ==> SoundPath(p, r.value[i])
    ensures r.Ok? && |r.value| < p.maxResults ==> Complete(p, r.value) && !Overflows(p)
  {
    if !ValidPointerSize(p) {
      return Err(InvalidPointerSize);
    }
    if InvalidLimits(p) {
      return Err(InvalidLimit);
    }
    var paths := Explore(p);
    return if paths.None? then Err(AddressOverflow) else Ok(paths.value);
  }

  // What the results mean

  /** The first path of a root is a shortest chain from it. */
  lemma FirstPathIsShortest(p: Problem, results: seq<Path>, i: nat, offsets: seq<int>)
    requires Searchable(p) && ShortestFirst(results) && Complete(p, results)
    requires i < |results| && forall j :: 0 <= j < i ==> results[j].root != results[i].root
    requires 1 <= |offsets| <= p.maxDepth && Linked(p, results[i].root, offsets)
    ensures |results[i].offsets| <= |offsets|
  {
  }

  /** An aligned place for a pointer in a region that is looked into. */
  ghost predicate Located(p: Problem, a: nat)
    requires Searchable(p)
  {
    exists i :: 0 <= i < |p.regions| && LocatedIn(p, p.regions[i], a)
  }

  ghost predicate LocatedIn(p: Problem, r: MemoryRegion, a: nat)
    requires Searchable(p)
  {
    Scannable(r, p.filter) && r.base <= a && a + p.pointerSize <= r.base + r.size && Multiple(a - r.base, p.alignment)
  }

  /** The reference: a chain of aligned pointers with offsets in range that ends at the target. */
  ghost predicate Resolves(p: Problem, root: nat, offsets: seq<int>)
    requires Searchable(p)
    decreases |offsets|
  {
    if offsets == [] then root == p.target
    else
      && Located(p, root) && 0 <= offsets[0] <= p.maxOffset && offsets[0] <= MAX_I64
      && PointerAt(p.memory, root, p.pointerSize) + offsets[0] <= MAX_U64
      && Resolves(p, PointerAt(p.memory, root, p.pointerSize) + offsets[0], offsets[1..])
  }

  /** Nothing in the regions fails to be read, and none runs past the end of the address space. */
  ghost predicate AllReadable(p: Problem)
    requires Searchable(p)
  {
    !Overflows(p) && Failures(QueryAt(p, p.target), p.regions) == 0
  }

  lemma {:induction false} FailuresAreEverywhere(p: Problem, b: U64, c: U64, regions: seq<MemoryRegion>)
    requires Searchable(p)
    ensures Failures(QueryAt(p, b), regions) == Failures(QueryAt(p, c), regions)
  {
    if regions != [] {
      FailuresAreEverywhere(p, b, c, regions[..|regions| - 1]);
      var r := regions[|regions| - 1];
      RegionFailuresAreEverywhere(p, b, c, r, r.base);
    }
  }

  lemma {:induction false} RegionFailuresAreEverywhere(p: Problem, b: U64, c: U64, r: MemoryRegion, cursor: nat)
    requires Searchable(p)
    ensures FailuresFrom(QueryAt(p, b), r, cursor) == FailuresFrom(QueryAt(p, c), r, cursor)
    decreases r.base + r.size - cursor
  {
    if cursor + p.pointerSize <= r.base + r.size {
      RegionFailuresAreEverywhere(p, b, c, r, cursor + QueryAt(p, b).chunk);
    }
  }

  /** With readable memory the links are exactly the pointers within reach. */
  lemma LinksAreNaive(p: Problem, a: nat, b: U64)
    requires Searchable(p) && AllReadable(p)
    ensures a in Predecessors(p, b) <==> Located(p, a) && LeadsTo(PointerAt(p.memory, a, p.pointerSize), b, p.maxOffset)
  {
    var q := QueryAt(p, b);
    OverflowIsEverywhere(p, b, p.target, p.regions);
    FailuresAreEverywhere(p, b, p.target, p.regions);
    FoundIfMatching(q, p.regions, a);
    if Located(p, a) {
      var i :| 0 <= i < |p.regions| && LocatedIn(p, p.regions[i], a);
      assert LeadsTo(PointerAt(p.memory, a, p.pointerSize), b, p.maxOffset) ==> Matches(q, p.regions[i], a);
    }
    if a in Predecessors(p, b) {
      var i :| 0 <= i < |p.regions| && Eligible(q, p.regions[i]) && Matches(q, p.regions[i], a);
      assert LocatedIn(p, p.regions[i], a);
    }
  }

  lemma OneNaiveLink(p: Problem, root: nat, b: U64, offsets: seq<int>)
    requires Searchable(p) && AllReadable(p) && root in Predecessors(p, b)
    requires offsets != [] && offsets[0] == Offset(p, root, b) && Resolves(p, b, offsets[1..])
    ensures Resolves(p, root, offsets)
  {
    assert Located(p, root) && LeadsTo(PointerAt(p.memory, root, p.pointerSize), b, p.maxOffset) by {
      LinksAreNaive(p, root, b);
    }
    assert PointerAt(p.memory, root, p.pointerSize) + offsets[0] == b;
  }

  lemma {:induction false} LinkedChainsAreNaive(p: Problem, root: nat, offsets: seq<int>)
    requires Searchable(p) && AllReadable(p) && Linked(p, root, offsets)
    ensures Resolves(p, root, offsets)
    decreases |offsets|
  {
    if offsets != [] {
      var b: U64 :| root in Predecessors(p, b) && offsets[0] == Offset(p, root, b) && Linked(p, b, offsets[1..]);
      LinkedChainsAreNaive(p, b, offsets[1..]);
      OneNaiveLink(p, root, b, offsets);
    }
  }

  lemma OneLinkedPointer(p: Problem, root: nat, offsets: seq<int>) returns (b: U64)
    requires Searchable(p) && AllReadable(p) && offsets != [] && Resolves(p, root, offsets)
    ensures root in Predecessors(p, b) && offsets[0] == Offset(p, root, b) && Resolves(p, b, offsets[1..])
  {
    b := PointerAt(p.memory, root, p.pointerSize) + offsets[0];
    LinksAreNaive(p, root, b);
  }

  lemma {:induction false} NaiveChainsAreLinked(p: Problem, root: nat, offsets: seq<int>)
    requires Searchable(p) && AllReadable(p) && Resolves(p, root, offsets)
    ensures Linked(p, root, offsets)
    decreases |offsets|
  {
    if offsets != [] {
      var b := OneLinkedPointer(p, root, offsets);
      NaiveChainsAreLinked(p, b, offsets[1..]);
    }
  }

  /** With readable memory the chains the search follows are exactly those that resolve to the target. */
  lemma LinkedIsNaive(p: Problem, root: nat, offsets: seq<int>)
    requires Searchable(p) && AllReadable(p)
    ensures Linked(p, root, offsets) <==> Resolves(p, root, offsets)
  {
    if Linked(p, root, offsets) {
      LinkedChainsAreNaive(p, root, offsets);
    } else if Resolves(p, root, offsets) {
      NaiveChainsAreLinked(p, root, offsets);
    }
  }

  ghost predicate AllLocated(p: Problem, stops: seq<int>)
    requires Searchable(p)
  {
    forall i :: 0 <= i < |stops| ==> 0 <= stops[i] && Located(p, stops[i])
  }

  /** Every pointer read lies at an aligned place in a region that is looked into. */
  ghost predicate ReadsLocated(p: Problem, root: U64, offsets: seq<int>)
    requires Searchable(p) && EndsAtTarget(p, root, offsets)
  {
    AllLocated(p, Stops(root, Follow(p.memory, root, offsets, p.pointerSize).value.dereferenced, offsets))
  }

  lemma LocatedIsReadable(p: Problem, a: nat)
    requires Searchable(p) && AllReadable(p) && Located(p, a)
    ensures a <= MAX_U64 && Readable(p.memory, a, p.pointerSize)
  {
    var pointer := PointerAt(p.memory, a, p.pointerSize);
    LinksAreNaive(p, a, pointer);
    assert a in Predecessors(p, pointer);
    PredecessorsLead(p, a, pointer);
  }

  lemma LocatedStep(p: Problem, a: nat, stops: seq<int>)
    requires Searchable(p)
    ensures AllLocated(p, [a] + stops) <==> Located(p, a) && AllLocated(p, stops)
  {
    var all := [a] + stops;
    assert all[0] == a && forall i :: 0 <= i < |stops| ==> all[i + 1] == stops[i];
  }

  /** One step of following a chain, and what is left of it. */
  lemma FollowingStep(p: Problem, root: U64, offsets: seq<int>, next: U64)
    requires Searchable(p) && offsets != [] && Readable(p.memory, root, p.pointerSize)
    requires next == PointerAt(p.memory, root, p.pointerSize) + offsets[0]
    ensures EndsAtTarget(p, root, offsets) <==> EndsAtTarget(p, next, offsets[1..])
    ensures EndsAtTarget(p, root, offsets) ==>
              (ReadsLocated(p, root, offsets) <==> Located(p, root) && ReadsLocated(p, next, offsets[1..]))
  {
    var pointer := PointerAt(p.memory, root, p.pointerSize);
    assert AddSigned(pointer, offsets[0]) == Some(next);
    var rest := Follow(p.memory, next, offsets[1..], p.pointerSize);
    if rest.Ok? {
      StopsStep(root, pointer, rest.value.dereferenced, offsets);
      LocatedStep(p, root, Stops(next, rest.value.dereferenced, offsets[1..]));
    }
  }

  /** The reference is resolution itself: with readable memory a chain resolves to the target in the sense of the
      search exactly if following it ends there, its offsets are in range, and every pointer it reads is located. */
  lemma {:induction false} ResolvesIsFollowing(p: Problem, root: U64, offsets: seq<int>)
    requires Searchable(p) && AllReadable(p)
    ensures Resolves(p, root, offsets)
            <==> EndsAtTarget(p, root, offsets) && OffsetsInRange(p, offsets) && ReadsLocated(p, root, offsets)
    decreases |offsets|
  {
    if offsets == [] {
    } else if !Located(p, root) {
      assert EndsAtTarget(p, root, offsets) ==>
        Stops(root, Follow(p.memory, root, offsets, p.pointerSize).value.dereferenced, offsets)[0] == root;
    } else {
      LocatedIsReadable(p, root);
      OffsetsStep(p, offsets);
      var next := PointerAt(p.memory, root, p.pointerSize) + offsets[0];
      if 0 <= next <= MAX_U64 {
        FollowingStep(p, root, offsets, next);
        ResolvesIsFollowing(p, next, offsets[1..]);
      }
    }
  }

  lemma OffsetsStep(p: Problem, offsets: seq<int>)
    requires offsets != []
    ensures OffsetsInRange(p, offsets)
            <==> 0 <= offsets[0] <= p.maxOffset && offsets[0] <= MAX_I64 && OffsetsInRange(p, offsets[1..])
  {
    assert forall i :: 1 <= i < |offsets| ==> offsets[i] == offsets[1..][i - 1];
  }

  /** The search inverts resolution: what it returns resolves to the target, and every root from which the
      target can be resolved within the depth is returned, with no longer a chain. */
  lemma SearchInvertsResolution(p: Problem, results: seq<Path>, root: nat, offsets: seq<int>)
    requires Searchable(p) && AllReadable(p)
    requires (forall i :: 0 <= i < |results| ==> SoundPath(p, results[i])) && Complete(p, results)
    ensures forall i :: 0 <= i < |results| ==>
              Resolves(p, results[i].root, results[i].offsets) && EndsAtTarget(p, results[i].root, results[i].offsets)
    ensures 1 <= |offsets| <= p.maxDepth && Resolves(p, root, offsets) ==> HasPath(results, root, |offsets|)
  {
    forall i | 0 <= i < |results|
      ensures Resolves(p, results[i].root, results[i].offsets) && EndsAtTarget(p, results[i].root, results[i].offsets)
    {
      LinkedIsNaive(p, results[i].root, results[i].offsets);
      LinkedChainsResolve(p, results[i].root, results[i].offsets);
    }
    LinkedIsNaive(p, root, offsets);
  }
}
