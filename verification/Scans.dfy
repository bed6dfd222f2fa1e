/** First and next scans of real memory, run by any number of workers in any interleaving. */
module Scans {
  import opened Numbers
  import opened ScanProtocol
  import opened ScanResult
  import M = Memory
  import Plan = ScanPlan

  const NEXT_SCAN_BATCH := 4096

  /** Decoding a value and comparing it: with nothing for a first scan, with the earlier value for a next one. */
  type Judge = (seq<M.Byte>, Option<seq<M.Byte>>) -> Outcome

  /** A result: where a value matched, the value, and the value of the scan before. */
  datatype ScanCandidate = ScanCandidate(address: nat, current: seq<M.Byte>, previous: Option<seq<M.Byte>>)

  /** What a worker keeps of the items that matched. */
  function Candidates(items: seq<Item>): seq<ScanCandidate> {
    seq(|items|, i requires 0 <= i < |items| =>
      ScanCandidate(items[i].address, items[i].current, items[i].previous))
  }

  function Addresses(items: seq<Item>): seq<nat> {
    seq(|items|, i requires 0 <= i < |items| => items[i].address)
  }

  // The first scan

  /** The items of one chunk; each accounts for the bytes up to the next position or the end of the span. */
  function ItemsAt(m: M.Bytes, judge: Judge, ps: seq<nat>, width: nat, alignment: nat, end: nat): seq<Item> {
    seq(|ps|, i requires 0 <= i < |ps| =>
      Item(ps[i], M.Value(m, ps[i], width), None, judge(M.Value(m, ps[i], width), None),
           if ps[i] + alignment < end then alignment else if ps[i] < end then end - ps[i] else 0))
  }

  /** A chunk that cannot be read is passed over as a whole. */
  ghost function ChunkBatch(m: M.Bytes, judge: Judge, c: Plan.ScanChunk, width: nat, alignment: nat): Batch
    requires 0 < width && 0 < alignment
  {
    if M.Readable(m, c.address, c.readLen) then
      Batch(ItemsAt(m, judge, Plan.ChunkPositions(c, width, alignment), width, alignment, c.address + c.logicalSpan), 0)
    else Batch([], c.logicalSpan)
  }

  ghost function Batches(m: M.Bytes, judge: Judge, chunks: seq<Plan.ScanChunk>, width: nat,
      alignment: nat): (bs: seq<Batch>)
    requires 0 < width && 0 < alignment
  {
    if chunks == [] then []
    else
      Batches(m, judge, chunks[..|chunks| - 1], width, alignment)
      + [ChunkBatch(m, judge, chunks[|chunks| - 1], width, alignment)]
  }

  ghost function ReadableOnly(m: M.Bytes, chunks: seq<Plan.ScanChunk>): seq<Plan.ScanChunk> {
    if chunks == [] then []
    else
      var c := chunks[|chunks| - 1];
      ReadableOnly(m, chunks[..|chunks| - 1]) + if M.Readable(m, c.address, c.readLen) then [c] else []
  }

  /** The reference: visit the addresses one after the other and keep the values that match. */
  function SequentialScan(m: M.Bytes, judge: Judge, ps: seq<nat>, width: nat): seq<ScanCandidate> {
    if ps == [] then []
    else
      var p := ps[|ps| - 1];
      var value := M.Value(m, p, width);
      SequentialScan(m, judge, ps[..|ps| - 1], width)
      + if judge(value, None).Hit? then [ScanCandidate(p, value, None)] else []
  }

  ghost predicate Judged(m: M.Bytes, judge: Judge, items: seq<Item>, width: nat) {
    forall i :: 0 <= i < |items| ==>
      && items[i].outcome == judge(items[i].current, None)
      && items[i].current == M.Value(m, items[i].address, width) && items[i].previous.None?
  }

  lemma OneMoreBatch(bs: seq<Batch>, b: Batch)
    ensures Flat(bs + [b]) == Flat(bs) + b.items
    ensures BatchBytes(bs + [b]) == BatchBytes(bs) + b.lump + Bytes(b.items)
  {
  }

  lemma JudgedConcat(m: M.Bytes, judge: Judge, a: seq<Item>, b: seq<Item>, width: nat)
    requires Judged(m, judge, a, width) && Judged(m, judge, b, width)
    ensures Judged(m, judge, a + b, width) && Addresses(a + b) == Addresses(a) + Addresses(b)
  {
  }

  /** A chunk's items lie at its positions if it can be read, and there are none otherwise. */
  lemma ItemsOfChunk(m: M.Bytes, judge: Judge, rest: seq<Plan.ScanChunk>, c: Plan.ScanChunk, width: nat, alignment: nat)
    requires 0 < width && 0 < alignment
    ensures var b := ChunkBatch(m, judge, c, width, alignment);
            && Judged(m, judge, b.items, width)
            && Plan.AllChunkPositions(rest, width, alignment) + Addresses(b.items)
               == Plan.AllChunkPositions(rest + if M.Readable(m, c.address, c.readLen)
                   then [c] else [], width, alignment)
  {
    var b := ChunkBatch(m, judge, c, width, alignment);
    if M.Readable(m, c.address, c.readLen) {
      assert Addresses(b.items) == Plan.ChunkPositions(c, width, alignment);
      Plan.OneMoreChunk(rest, c, width, alignment);
    } else {
      assert Addresses(b.items) == [] && rest + [] == rest;
    }
  }

  lemma {:induction false} FlatOfBatches(m: M.Bytes, judge: Judge, chunks: seq<Plan.ScanChunk>, width: nat,
      alignment: nat)
    requires 0 < width && 0 < alignment
    ensures var items := Flat(Batches(m, judge, chunks, width, alignment));
            && Judged(m, judge, items, width)
            && Addresses(items) == Plan.AllChunkPositions(ReadableOnly(m, chunks), width, alignment)
  {
    if chunks != [] {
      var init, c := chunks[..|chunks| - 1], chunks[|chunks| - 1];
      FlatOfBatches(m, judge, init, width, alignment);
      var bs := Batches(m, judge, init, width, alignment);
      var b := ChunkBatch(m, judge, c, width, alignment);
      OneMoreBatch(bs, b);
      ItemsOfChunk(m, judge, ReadableOnly(m, init), c, width, alignment);
      JudgedConcat(m, judge, Flat(bs), b.items, width);
    }
  }

  lemma {:induction false} FirstHits(m: M.Bytes, judge: Judge, items: seq<Item>, width: nat)
    requires Judged(m, judge, items, width)
    ensures Candidates(HitsOf(items)) == SequentialScan(m, judge, Addresses(items), width)
  {
    if items != [] {
      var n := |items| - 1;
      FirstHits(m, judge, items[..n], width);
      assert Addresses(items)[..n] == Addresses(items[..n]);
    }
  }

  /** Leaving out chunks leaves out positions and keeps the others in order. */
  lemma {:induction false} ReadableAscend(m: M.Bytes, chunks: seq<Plan.ScanChunk>, width: nat, alignment: nat)
    requires 0 < width && 0 < alignment && M.Ascending(Plan.AllChunkPositions(chunks, width, alignment))
    ensures M.Ascending(Plan.AllChunkPositions(ReadableOnly(m, chunks), width, alignment))
    ensures forall p :: p in Plan.AllChunkPositions(ReadableOnly(m, chunks), width, alignment)
                        ==> p in Plan.AllChunkPositions(chunks, width, alignment)
  {
    if chunks != [] {
      var init, c := chunks[..|chunks| - 1], chunks[|chunks| - 1];
      AscendingParts(Plan.AllChunkPositions(init, width, alignment), Plan.ChunkPositions(c, width, alignment));
      ReadableAscend(m, init, width, alignment);
      if M.Readable(m, c.address, c.readLen) {
        Plan.OneMoreChunk(ReadableOnly(m, init), c, width, alignment);
        AscendingJoin(Plan.AllChunkPositions(ReadableOnly(m, init), width, alignment),
            Plan.ChunkPositions(c, width, alignment));
      } else {
        assert ReadableOnly(m, chunks) == ReadableOnly(m, init);
      }
    }
  }

  lemma AscendingJoin(a: seq<nat>, b: seq<nat>)
    requires M.Ascending(a) && M.Ascending(b) && forall p, q :: p in a && q in b ==> p < q
    ensures M.Ascending(a + b)
  {
    forall i, j | 0 <= i < |a| <= j < |a + b| ensures (a + b)[i] < (a + b)[j] {
      assert (a + b)[i] in a && (a + b)[j] in b;
    }
  }

  lemma AscendingParts(a: seq<nat>, b: seq<nat>)
    requires M.Ascending(a + b)
    ensures M.Ascending(a) && M.Ascending(b) && forall p, q :: p in a && q in b ==> p < q
  {
    assert forall i :: 0 <= i < |a| ==> (a + b)[i] == a[i];
    assert forall j :: 0 <= j < |b| ==> (a + b)[|a| + j] == b[j];
  }

  lemma {:induction false} AllReadable(m: M.Bytes, chunks: seq<Plan.ScanChunk>)
    requires forall c | c in chunks :: M.Readable(m, c.address, c.readLen)
    ensures ReadableOnly(m, chunks) == chunks
  {
    if chunks != [] {
      AllReadable(m, chunks[..|chunks| - 1]);
      assert chunks == chunks[..|chunks| - 1] + [chunks[|chunks| - 1]];
    }
  }

  /** What every finished, uninterrupted first scan returns: the matches of one sequential pass over the
      positions of the chunks that can be read, with the values found there. */
  lemma FirstScanIsSequential(
    regions: seq<M.MemoryRegion>, f: M.RegionFilter, chunks: seq<Plan.ScanChunk>, width: nat, alignment: nat,
    m: M.Bytes, judge: Judge, c: Config, events: seq<Event>, result: seq<Item>)
    requires 0 < width && 0 < alignment && M.Disjoint(regions)
    requires Plan.AllChunkPositions(chunks, width, alignment) == Plan.Positions(regions, f, width, alignment)
    requires c.batches == Batches(m, judge, chunks, width, alignment) && 0 < c.maxResults && 0 < c.workers
    requires Run(c, events).Some? && Finished(Run(c, events).value)
    requires !Halted(Run(c, events).value) && !ReturnsError(Run(c, events).value)
    requires Returned(c, Run(c, events).value, result)
    ensures Candidates(result)
            == SequentialScan(m, judge, Plan.AllChunkPositions(ReadableOnly(m, chunks), width, alignment), width)
    ensures (forall k | k in chunks :: M.Readable(m, k.address, k.readLen)) ==>
              Candidates(result) == SequentialScan(m, judge, Plan.Positions(regions, f, width, alignment), width)
    ensures StrictlySorted(result)
  {
    var items := Flat(c.batches);
    FirstScanItems(regions, f, chunks, width, alignment, m, judge);
    EveryScheduleIsTheSequentialScan(c, events, result);
    HitsOfSorted(items);
    FirstHits(m, judge, items, width);
    if forall k | k in chunks :: M.Readable(m, k.address, k.readLen) {
      AllReadable(m, chunks);
    }
  }

  lemma {:induction false} ScanMembers(m: M.Bytes, judge: Judge, ps: seq<nat>, width: nat, k: ScanCandidate)
    ensures k in SequentialScan(m, judge, ps, width)
            <==> && k.address in ps && k.current == M.Value(m, k.address, width) && k.previous.None?
                 && judge(k.current, None).Hit?
  {
    if ps != [] {
      var n := |ps| - 1;
      ScanMembers(m, judge, ps[..n], width, k);
      assert ps == ps[..n] + [ps[n]];
    }
  }

  /** A candidate of a first scan: a place in a scannable region, with the value that is there and matches. */
  ghost predicate IsFirstMatch(regions: seq<M.MemoryRegion>, f: M.RegionFilter, width: nat, alignment: nat,
      m: M.Bytes, judge: Judge, k: ScanCandidate)
    requires 0 < alignment
  {
    && Plan.IsPlace(regions, f, width, alignment, k.address) && k.current == M.Value(m, k.address, width)
    && k.previous.None? && judge(k.current, None).Hit?
  }

  /** What a first scan finds: where the scannable regions can be read, a candidate is returned if and only if it is
      an aligned place inside one of them, with the value there, and that value matches. */
  lemma FirstScanFindsExactly(
    regions: seq<M.MemoryRegion>, f: M.RegionFilter, chunks: seq<Plan.ScanChunk>, width: nat, alignment: nat,
    m: M.Bytes, judge: Judge, c: Config, events: seq<Event>, result: seq<Item>, k: ScanCandidate)
    requires 0 < width && 0 < alignment && M.Disjoint(regions) && Plan.AllFit(regions, f, chunks)
    requires Plan.AllChunkPositions(chunks, width, alignment) == Plan.Positions(regions, f, width, alignment)
    requires forall i :: 0 <= i < |regions| && M.Scannable(regions[i], f) ==>
        M.Readable(m, regions[i].base, regions[i].size)
    requires c.batches == Batches(m, judge, chunks, width, alignment) && 0 < c.maxResults && 0 < c.workers
    requires Run(c, events).Some? && Finished(Run(c, events).value)
    requires !Halted(Run(c, events).value) && !ReturnsError(Run(c, events).value)
    requires Returned(c, Run(c, events).value, result)
    ensures k in Candidates(result) <==> IsFirstMatch(regions, f, width, alignment, m, judge, k)
  {
    forall h | h in chunks ensures M.Readable(m, h.address, h.readLen) {
      assert Plan.ChunkFits(regions, f, h);
    }
    FirstScanIsSequential(regions, f, chunks, width, alignment, m, judge, c, events, result);
    ScanMembers(m, judge, Plan.Positions(regions, f, width, alignment), width, k);
    Plan.PositionsAreThePlaces(regions, f, width, alignment, k.address);
  }

  lemma {:induction false} ReadableMembers(m: M.Bytes, chunks: seq<Plan.ScanChunk>, c: Plan.ScanChunk)
    ensures c in ReadableOnly(m, chunks) <==> c in chunks && M.Readable(m, c.address, c.readLen)
  {
    if chunks != [] {
      var n := |chunks| - 1;
      ReadableMembers(m, chunks[..n], c);
      assert chunks == chunks[..n] + [chunks[n]];
    }
  }

  ghost predicate IsReadPlace(m: M.Bytes, c: Plan.ScanChunk, width: nat, alignment: nat, p: nat)
    requires 0 < alignment
  {
    M.Readable(m, c.address, c.readLen) && Plan.IsPlaceInChunk(c, width, alignment, p)
  }

  lemma ReadPlaces(m: M.Bytes, chunks: seq<Plan.ScanChunk>, width: nat, alignment: nat, p: nat)
    requires 0 < width && 0 < alignment
    ensures p in Plan.AllChunkPositions(ReadableOnly(m, chunks), width, alignment)
            <==> exists h :: h in chunks && IsReadPlace(m, h, width, alignment, p)
  {
    var readable := ReadableOnly(m, chunks);
    Plan.ChunkPositionsAreThePlaces(readable, width, alignment, p);
    if i :| 0 <= i < |readable| && Plan.IsPlaceInChunk(readable[i], width, alignment, p) {
      ReadableMembers(m, chunks, readable[i]);
      assert IsReadPlace(m, readable[i], width, alignment, p);
    }
    if h :| h in chunks && IsReadPlace(m, h, width, alignment, p) {
      ReadableMembers(m, chunks, h);
      var i :| 0 <= i < |readable| && readable[i] == h;
    }
  }

  /** Where some of it cannot be read, exactly the candidates of readable chunks are returned. */
  lemma FirstScanFindsTheReadable(
    regions: seq<M.MemoryRegion>, f: M.RegionFilter, chunks: seq<Plan.ScanChunk>, width: nat, alignment: nat,
    m: M.Bytes, judge: Judge, c: Config, events: seq<Event>, result: seq<Item>, k: ScanCandidate)
    requires 0 < width && 0 < alignment && M.Disjoint(regions)
    requires Plan.AllChunkPositions(chunks, width, alignment) == Plan.Positions(regions, f, width, alignment)
    requires c.batches == Batches(m, judge, chunks, width, alignment) && 0 < c.maxResults && 0 < c.workers
    requires Run(c, events).Some? && Finished(Run(c, events).value)
    requires !Halted(Run(c, events).value) && !ReturnsError(Run(c, events).value)
    requires Returned(c, Run(c, events).value, result)
    ensures k in Candidates(result)
            <==> && (exists h :: h in chunks && IsReadPlace(m, h, width, alignment, k.address))
                 && k.current == M.Value(m, k.address, width) && k.previous.None? && judge(k.current, None).Hit?
  {
    FirstScanIsSequential(regions, f, chunks, width, alignment, m, judge, c, events, result);
    ScanMembers(m, judge, Plan.AllChunkPositions(ReadableOnly(m, chunks), width, alignment), width, k);
    ReadPlaces(m, chunks, width, alignment, k.address);
  }

  /** The work of a first scan is in address order, without repetition. */
  lemma FirstScanItems(
    regions: seq<M.MemoryRegion>, f: M.RegionFilter, chunks: seq<Plan.ScanChunk>, width: nat, alignment: nat,
    m: M.Bytes, judge: Judge)
    requires 0 < width && 0 < alignment && M.Disjoint(regions)
    requires Plan.AllChunkPositions(chunks, width, alignment) == Plan.Positions(regions, f, width, alignment)
    ensures var items := Flat(Batches(m, judge, chunks, width, alignment));
            && Judged(m, judge, items, width) && StrictlySorted(items)
            && Addresses(items) == Plan.AllChunkPositions(ReadableOnly(m, chunks), width, alignment)
  {
    var items := Flat(Batches(m, judge, chunks, width, alignment));
    FlatOfBatches(m, judge, chunks, width, alignment);
    Plan.PositionsAscend(regions, f, width, alignment);
    ReadableAscend(m, chunks, width, alignment);
    assert forall i :: 0 <= i < |items| ==> Addresses(items)[i] == items[i].address;
  }

  // Bytes

  /** Together the items of a grid account for everything from its start to one step past its last position. */
  lemma {:induction false} GridBytes(
    m: M.Bytes, judge: Judge, from: nat, limit: nat, width: nat, alignment: nat, end: nat)
    requires 0 < width && 0 < alignment && limit <= end
    ensures var g := M.Grid(from, limit, alignment);
            Bytes(ItemsAt(m, judge, g, width, alignment, end))
            == if g == [] then 0
               else if g[|g| - 1] + alignment < end then g[|g| - 1] + alignment - from else end - from
    decreases if from < limit then limit - from else 0
  {
    if from < limit {
      GridBytes(m, judge, from + alignment, limit, width, alignment, end);
      var items := ItemsAt(m, judge, M.Grid(from, limit, alignment), width, alignment, end);
      assert items[1..] == ItemsAt(m, judge, M.Grid(from + alignment, limit, alignment), width, alignment, end);
    }
  }

  /** A readable chunk accounts for exactly what the evaluation loop has covered at its end. */
  lemma ItemsCoverTheChunk(m: M.Bytes, judge: Judge, c: Plan.ScanChunk, width: nat, alignment: nat)
    requires 0 < width && 0 < alignment
    ensures var ps := Plan.ChunkPositions(c, width, alignment);
            Bytes(ItemsAt(m, judge, ps, width, alignment, c.address + c.logicalSpan)) == Plan.Covered(c, ps, alignment)
  {
    var end := c.address + c.logicalSpan;
    GridBytes(m, judge, c.address, Plan.PositionsEnd(c, width), width, alignment, end);
  }

  lemma {:induction false} BytesOfBatches(m: M.Bytes, judge: Judge, chunks: seq<Plan.ScanChunk>, width: nat,
      alignment: nat)
    requires 0 < width && 0 < alignment
    ensures BatchBytes(Batches(m, judge, chunks, width, alignment)) <= Plan.Spans(chunks)
  {
    if chunks != [] {
      var init, c := chunks[..|chunks| - 1], chunks[|chunks| - 1];
      BytesOfBatches(m, judge, init, width, alignment);
      var bs := Batches(m, judge, init, width, alignment);
      OneMoreBatch(bs, ChunkBatch(m, judge, c, width, alignment));
      OneChunkBytes(m, judge, c, width, alignment);
    }
  }

  lemma OneChunkBytes(m: M.Bytes, judge: Judge, c: Plan.ScanChunk, width: nat, alignment: nat)
    requires 0 < width && 0 < alignment
    ensures var b := ChunkBatch(m, judge, c, width, alignment); b.lump + Bytes(b.items) <= c.logicalSpan
  {
    ItemsCoverTheChunk(m, judge, c, width, alignment);
  }

  /** The announced total: the sizes of the scannable regions, added with saturation. */
  function TotalBytes(regions: seq<M.MemoryRegion>, f: M.RegionFilter): U64 {
    if regions == [] then 0
    else
      var rest := TotalBytes(regions[..|regions| - 1], f);
      if M.Scannable(regions[|regions| - 1], f) then SatAdd(rest, regions[|regions| - 1].size) else rest
  }

  lemma {:induction false} TotalIsExact(regions: seq<M.MemoryRegion>, f: M.RegionFilter)
    requires M.Disjoint(regions) && forall i :: 0 <= i < |regions| && M.Scannable(regions[i], f) ==>
        M.End(regions[i]).Some?
    ensures TotalBytes(regions, f) == Plan.Sizes(regions, f)
    ensures regions != [] ==> Plan.Sizes(regions, f) <= regions[|regions| - 1].base + regions[|regions| - 1].size
  {
    if regions != [] {
      var n := |regions| - 1;
      TotalIsExact(regions[..n], f);
      if 0 < n {
        assert regions[n - 1].base + regions[n - 1].size <= regions[n].base;
      }
    }
  }

  /** The bytes scanned so far are bytes of the work, at any point of any run. */
  lemma BytesAreWork(c: Config, events: seq<Event>)
    requires 0 < c.maxResults && Run(c, events).Some?
    ensures Run(c, events).value.bytes <= BatchBytes(c.batches)
  {
    RunsSatisfyInv(c, events);
    FlatHasPrefix(c.batches, |Claimed(c, Run(c, events).value)|, Item(0, [], None, Miss, 0));
  }

  /** At no point of any run, finished or not, do the bytes scanned exceed the announced total. */
  lemma BytesStayWithinTheTotal(
    regions: seq<M.MemoryRegion>, f: M.RegionFilter, chunks: seq<Plan.ScanChunk>, width: nat, alignment: nat,
    m: M.Bytes, judge: Judge, c: Config, events: seq<Event>)
    requires 0 < width && 0 < alignment && M.Disjoint(regions)
    requires forall i :: 0 <= i < |regions| && M.Scannable(regions[i], f) ==> M.End(regions[i]).Some?
    requires Plan.Spans(chunks) <= Plan.Sizes(regions, f)
    requires c.batches == Batches(m, judge, chunks, width, alignment) && 0 < c.maxResults
    requires Run(c, events).Some?
    ensures Run(c, events).value.bytes <= TotalBytes(regions, f)
  {
    BytesAreWork(c, events);
    BytesOfBatches(m, judge, chunks, width, alignment);
    TotalIsExact(regions, f);
  }

  // The next scan

  /** A candidate is read again and compared with its current value, which becomes the previous one. */
  ghost function NextItem(m: M.Bytes, judge: Judge, k: ScanCandidate, width: nat): Item {
    var value := M.Value(m, k.address, width);
    Item(k.address, value, Some(k.current),
         if M.Readable(m, k.address, width) then judge(value, Some(k.current)) else Miss, width)
  }

  ghost function NextItems(m: M.Bytes, judge: Judge, ks: seq<ScanCandidate>, width: nat): seq<Item> {
    seq(|ks|, i requires 0 <= i < |ks| => NextItem(m, judge, ks[i], width))
  }

  /** The candidates as workers claim them: NEXT_SCAN_BATCH at a time. */
  function Slices(items: seq<Item>, size: nat): (bs: seq<Batch>)
    requires 0 < size
    decreases |items|
  {
    if items == [] then []
    else if |items| <= size then [Batch(items, 0)]
    else [Batch(items[..size], 0)] + Slices(items[size..], size)
  }

  lemma SliceOfRest(items: seq<Item>, size: nat, from: nat, to: nat)
    requires size <= from <= to <= |items|
    ensures items[size..][from - size..to - size] == items[from..to]
  {
  }

  /** The k-th claim starts at k times the batch size and stops at the end of the candidates. */
  lemma {:induction false} SliceAt(items: seq<Item>, size: nat, k: nat)
    requires 0 < size
    ensures k < |Slices(items, size)| <==> k * size < |items|
    ensures k * size < |items| ==>
              Slices(items, size)[k]
              == Batch(items[k * size..if (k + 1) * size < |items| then (k + 1) * size else |items|], 0)
    decreases k
  {
    if items == [] || |items| <= size {
      if 0 < k {
        M.StepsAreOrdered(1, k, size);
      }
    } else if 0 < k {
      SliceAt(items[size..], size, k - 1);
      assert k * size == (k - 1) * size + size && (k + 1) * size == k * size + size;
      if k * size < |items| {
        SliceOfRest(items, size, k * size, if (k + 1) * size < |items| then (k + 1) * size else |items|);
      }
    }
  }

  lemma {:induction false} FlatCons(b: Batch, bs: seq<Batch>)
    ensures Flat([b] + bs) == b.items + Flat(bs)
    ensures BatchBytes([b] + bs) == b.lump + Bytes(b.items) + BatchBytes(bs)
    decreases |bs|
  {
    if bs == [] {
      assert [b] + bs == [] + [b];
      OneMoreBatch([], b);
    } else {
      var init, last := bs[..|bs| - 1], bs[|bs| - 1];
      FlatCons(b, init);
      OneMoreBatch(init, last);
      assert bs == init + [last] && [b] + bs == ([b] + init) + [last];
      assert Flat([b] + bs) == (b.items + Flat(init)) + last.items by {
        OneMoreBatch([b] + init, last);
      }
      assert BatchBytes([b] + bs) == BatchBytes([b] + init) + last.lump + Bytes(last.items) by {
        OneMoreBatch([b] + init, last);
      }
    }
  }

  /** Cut into batches, the candidates are still the same candidates in the same order. */
  lemma {:induction false} SlicesAreWhole(items: seq<Item>, size: nat)
    requires 0 < size
    ensures Flat(Slices(items, size)) == items
    decreases |items|
  {
    if items == [] {
    } else if |items| <= size {
      FlatCons(Batch(items, 0), []);
    } else {
      SlicesAreWhole(items[size..], size);
      FlatCons(Batch(items[..size], 0), Slices(items[size..], size));
    }
  }

  lemma {:induction false} SliceBytes(items: seq<Item>, size: nat)
    requires 0 < size
    ensures BatchBytes(Slices(items, size)) == Bytes(items)
    decreases |items|
  {
    if items == [] {
    } else if |items| <= size {
      FlatCons(Batch(items, 0), []);
    } else {
      SliceBytes(items[size..], size);
      FlatCons(Batch(items[..size], 0), Slices(items[size..], size));
      BytesConcat(items[..size], items[size..]);
      assert items == items[..size] + items[size..];
    }
  }

  lemma {:induction false} BytesConcat(a: seq<Item>, b: seq<Item>)
    ensures Bytes(a + b) == Bytes(a) + Bytes(b)
    decreases |a|
  {
    if a == [] {
      assert a + b == b;
    } else {
      BytesConcat(a[1..], b);
      assert (a + b)[1..] == a[1..] + b;
    }
  }

  lemma {:induction false} NextBytes(m: M.Bytes, judge: Judge, ks: seq<ScanCandidate>, width: nat)
    ensures Bytes(NextItems(m, judge, ks, width)) == |ks| * width
    decreases |ks|
  {
    if ks != [] {
      NextBytes(m, judge, ks[1..], width);
      assert NextItems(m, judge, ks, width)[1..] == NextItems(m, judge, ks[1..], width);
      assert |ks| * width == |ks[1..]| * width + width;
    }
  }

  /** The reference for a next scan: the candidates that can still be read and still match, in order, each with
      the value it has now and the one it had before. */
  ghost function SequentialNext(m: M.Bytes, judge: Judge, ks: seq<ScanCandidate>, width: nat): seq<ScanCandidate> {
    if ks == [] then []
    else
      var k := ks[|ks| - 1];
      var value := M.Value(m, k.address, width);
      SequentialNext(m, judge, ks[..|ks| - 1], width)
      + if M.Readable(m, k.address, width) && judge(value, Some(k.current)).Hit?
          then [ScanCandidate(k.address, value, Some(k.current))] else []
  }

  /** A candidate of a next scan: one of the earlier ones that can still be read and whose value, compared with the
      one it had, matches. */
  ghost predicate IsNextMatch(m: M.Bytes, judge: Judge, earlier: ScanCandidate, width: nat, k: ScanCandidate) {
    && M.Readable(m, earlier.address, width) && judge(M.Value(m, earlier.address, width), Some(earlier.current)).Hit?
    && k == ScanCandidate(earlier.address, M.Value(m, earlier.address, width), Some(earlier.current))
  }

  lemma {:induction false} NextMembers(m: M.Bytes, judge: Judge, ks: seq<ScanCandidate>, width: nat,
      k: ScanCandidate)
    ensures k in SequentialNext(m, judge, ks, width)
            <==> exists i :: 0 <= i < |ks| && IsNextMatch(m, judge, ks[i], width, k)
  {
    if ks != [] {
      var n := |ks| - 1;
      NextMembers(m, judge, ks[..n], width, k);
      if i :| 0 <= i < |ks| && IsNextMatch(m, judge, ks[i], width, k) {
        assert i < n ==> IsNextMatch(m, judge, ks[..n][i], width, k);
      }
      if i :| 0 <= i < n && IsNextMatch(m, judge, ks[..n][i], width, k) {
        assert IsNextMatch(m, judge, ks[i], width, k);
      }
    }
  }

  lemma {:induction false} NextHits(m: M.Bytes, judge: Judge, ks: seq<ScanCandidate>, width: nat)
    ensures Candidates(HitsOf(NextItems(m, judge, ks, width))) == SequentialNext(m, judge, ks, width)
  {
    if ks != [] {
      var n := |ks| - 1;
      NextHits(m, judge, ks[..n], width);
      assert NextItems(m, judge, ks, width)[..n] == NextItems(m, judge, ks[..n], width);
    }
  }

  /** Every uninterrupted next scan keeps exactly the candidates a sequential pass keeps, in address order
      again, and accounts for every candidate's bytes. */
  lemma NextScanIsSequential(
    m: M.Bytes, judge: Judge, ks: seq<ScanCandidate>, width: nat, c: Config, events: seq<Event>, result: seq<Item>)
    requires forall i, j :: 0 <= i < j < |ks| ==> ks[i].address < ks[j].address
    requires c.batches == Slices(NextItems(m, judge, ks, width), NEXT_SCAN_BATCH) && 0 < c.maxResults && 0 < c.workers
    requires Run(c, events).Some? && Finished(Run(c, events).value)
    requires !Halted(Run(c, events).value) && !ReturnsError(Run(c, events).value)
    requires Returned(c, Run(c, events).value, result)
    ensures Candidates(result) == SequentialNext(m, judge, ks, width) && StrictlySorted(result)
    ensures Run(c, events).value.bytes == |ks| * width
  {
    var items := NextItems(m, judge, ks, width);
    WholeWork(items, NEXT_SCAN_BATCH, c.batches);
    assert Candidates(result) == SequentialNext(m, judge, ks, width) && StrictlySorted(result) by {
      NextItemsAreSorted(m, judge, ks, width);
      HitsOfSorted(items);
      EveryScheduleIsTheSequentialScan(c, events, result);
      NextHits(m, judge, ks, width);
    }
    assert Run(c, events).value.bytes == |ks| * width by {
      NothingIsSkipped(c, events);
      NextBytes(m, judge, ks, width);
    }
  }

  /** What a next scan finds: a candidate is returned if and only if it is an earlier one that can still be read and
      still matches, with both its values. */
  lemma NextScanFindsExactly(
    m: M.Bytes, judge: Judge, ks: seq<ScanCandidate>, width: nat, c: Config, events: seq<Event>, result: seq<Item>,
    k: ScanCandidate)
    requires forall i, j :: 0 <= i < j < |ks| ==> ks[i].address < ks[j].address
    requires c.batches == Slices(NextItems(m, judge, ks, width), NEXT_SCAN_BATCH) && 0 < c.maxResults && 0 < c.workers
    requires Run(c, events).Some? && Finished(Run(c, events).value)
    requires !Halted(Run(c, events).value) && !ReturnsError(Run(c, events).value)
    requires Returned(c, Run(c, events).value, result)
    ensures k in Candidates(result) <==> exists i :: 0 <= i < |ks| && IsNextMatch(m, judge, ks[i], width, k)
  {
    NextScanIsSequential(m, judge, ks, width, c, events, result);
    NextMembers(m, judge, ks, width, k);
  }

  /** The announced total of a next scan. */
  function NextTotal(candidates: nat, width: nat): U64 {
    if candidates * width <= MAX_U64 then candidates * width else MAX_U64
  }

  /** At no point of any next scan, finished or not, do the bytes scanned exceed those of all candidates, which is
      the announced total unless that is saturated. */
  lemma NextBytesStayWithinTheTotal(
    m: M.Bytes, judge: Judge, ks: seq<ScanCandidate>, width: nat, c: Config, events: seq<Event>)
    requires c.batches == Slices(NextItems(m, judge, ks, width), NEXT_SCAN_BATCH) && 0 < c.maxResults
    requires Run(c, events).Some?
    ensures Run(c, events).value.bytes <= |ks| * width
    ensures |ks| * width <= MAX_U64 ==> Run(c, events).value.bytes <= NextTotal(|ks|, width)
  {
    BytesAreWork(c, events);
    WholeWork(NextItems(m, judge, ks, width), NEXT_SCAN_BATCH, c.batches);
    NextBytes(m, judge, ks, width);
  }

  lemma NextItemsAreSorted(m: M.Bytes, judge: Judge, ks: seq<ScanCandidate>, width: nat)
    requires forall i, j :: 0 <= i < j < |ks| ==> ks[i].address < ks[j].address
    ensures StrictlySorted(NextItems(m, judge, ks, width))
  {
  }

  lemma WholeWork(items: seq<Item>, size: nat, batches: seq<Batch>)
    requires 0 < size && batches == Slices(items, size)
    ensures Flat(batches) == items && BatchBytes(batches) == Bytes(items)
  {
    SlicesAreWhole(items, size);
    SliceBytes(items, size);
  }
}
