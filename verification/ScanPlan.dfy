/** Planning a first scan: cutting every scannable region into overlapping chunks. */
module ScanPlan {
  import opened Numbers
  import opened Memory

  const MAX_SCANNER_WORKERS := 64
  const AUTO_SCANNER_WORKER_CAP := 16

  datatype ScanChunk = ScanChunk(regionIndex: nat, address: U64, logicalSpan: U64, readLen: U64)

  /** Zero asks for an automatic count. */
  function ResolveWorkerCount(configured: nat, available: nat, workItems: nat): (n: nat)
    ensures 1 <= n <= MAX_SCANNER_WORKERS && (n == 1 || n <= workItems)
    ensures configured == 0 ==> n <= AUTO_SCANNER_WORKER_CAP
    ensures 0 < configured <= MAX_SCANNER_WORKERS && configured <= workItems ==> n == configured
    ensures configured == 0 && AUTO_SCANNER_WORKER_CAP <= available && AUTO_SCANNER_WORKER_CAP <= workItems ==>
              n == AUTO_SCANNER_WORKER_CAP
    ensures configured == 0 && 1 <= available <= AUTO_SCANNER_WORKER_CAP && available <= workItems ==> n == available
    ensures MAX_SCANNER_WORKERS <= configured && MAX_SCANNER_WORKERS <= workItems ==> n == MAX_SCANNER_WORKERS
    ensures workItems < configured <= MAX_SCANNER_WORKERS && 1 <= workItems ==> n == workItems
  {
    var automatic := if available < AUTO_SCANNER_WORKER_CAP then available else AUTO_SCANNER_WORKER_CAP;
    var requested :=
      if configured == 0 then automatic
      else if configured < MAX_SCANNER_WORKERS then configured else MAX_SCANNER_WORKERS;
    var atLeastOne := if requested < 1 then 1 else requested;
    var items := if workItems < 1 then 1 else workItems;
    if atLeastOne < items then atLeastOne else items
  }

  /** The stride of chunk starts: a whole number of alignments, never too large for an address. */
  function AlignedScanSpan(chunkSize: U64, alignment: U64): (span: U64)
    requires 0 < alignment
    ensures 0 < span && span % alignment == 0 && (span <= chunkSize || span == alignment)
    ensures chunkSize < span + alignment
  {
    var units := if chunkSize / alignment < 1 then 1 else chunkSize / alignment;
    MultipleOf(units, alignment);
    assert chunkSize / alignment * alignment <= chunkSize;
    units * alignment
  }

  lemma MultipleOf(units: nat, alignment: nat)
    requires 0 < alignment && 0 < units
    ensures 0 < units * alignment && units * alignment % alignment == 0
  {
    Remainder(units * alignment, units, 0, alignment);
  }

  /** The end of the positions of a region: a value must fit before the region's end. */
  function Limit(r: MemoryRegion, width: nat): nat
    requires 0 < width
  {
    if r.size < width then r.base else r.base + r.size - width + 1
  }

  /** The aligned addresses of one region at which a value fits. */
  function RegionPositions(r: MemoryRegion, width: nat, alignment: nat): seq<nat>
    requires 0 < width && 0 < alignment
  {
    Grid(r.base, Limit(r, width), alignment)
  }

  /** The aligned addresses of all scannable regions, in order: what a sequential scan would visit. */
  function Positions(regions: seq<MemoryRegion>, f: RegionFilter, width: nat, alignment: nat): seq<nat>
    requires 0 < width && 0 < alignment
  {
    if regions == [] then []
    else
      var last := regions[|regions| - 1];
      Positions(regions[..|regions| - 1], f, width, alignment)
      + if Scannable(last, f) then RegionPositions(last, width, alignment) else []
  }

  /** Where the positions of a chunk end: a value starts within the span, and fits the buffer. */
  function PositionsEnd(c: ScanChunk, width: nat): nat {
    if c.logicalSpan + width <= c.readLen + 1 then c.address + c.logicalSpan
    else if width <= c.readLen then c.address + c.readLen - width + 1 else c.address
  }

  /** The addresses a worker evaluates in one chunk: within its span, and with the value inside its buffer. */
  function ChunkPositions(c: ScanChunk, width: nat, alignment: nat): seq<nat>
    requires 0 < width && 0 < alignment
  {
    Grid(c.address, PositionsEnd(c, width), alignment)
  }

  function AllChunkPositions(chunks: seq<ScanChunk>, width: nat, alignment: nat): seq<nat>
    requires 0 < width && 0 < alignment
  {
    if chunks == [] then []
    else
      AllChunkPositions(chunks[..|chunks| - 1], width, alignment)
      + ChunkPositions(chunks[|chunks| - 1], width, alignment)
  }

  lemma OneMoreChunk(chunks: seq<ScanChunk>, c: ScanChunk, width: nat, alignment: nat)
    requires 0 < width && 0 < alignment
    ensures AllChunkPositions(chunks + [c], width, alignment)
            == AllChunkPositions(chunks, width, alignment) + ChunkPositions(c, width, alignment)
    ensures Spans(chunks + [c]) == Spans(chunks) + c.logicalSpan
  {
  }

  function Spans(chunks: seq<ScanChunk>): nat {
    if chunks == [] then 0 else Spans(chunks[..|chunks| - 1]) + chunks[|chunks| - 1].logicalSpan
  }

  function Sizes(regions: seq<MemoryRegion>, f: RegionFilter): nat {
    if regions == [] then 0
    else Sizes(regions[..|regions| - 1], f) + if Scannable(regions[|regions| - 1], f)
        then regions[|regions| - 1].size else 0
  }

  /** A chunk reads only inside its own region, and its span is not empty. */
  ghost predicate ChunkFits(regions: seq<MemoryRegion>, f: RegionFilter, c: ScanChunk) {
    && c.regionIndex < |regions| && Scannable(regions[c.regionIndex], f)
    && var r := regions[c.regionIndex];
       r.base <= c.address && c.address + c.readLen <= r.base + r.size
           && 0 < c.logicalSpan <= r.base + r.size - c.address
  }

  /** The chunk at a cursor: as much of the span as the region still has, and the overlap if it is there. */
  function ChunkAt(region: MemoryRegion, index: nat, cursor: U64, width: nat, scanSpan: U64): ScanChunk
    requires region.base <= cursor < region.base + region.size <= MAX_U64 && 0 < width <= 8
  {
    var remaining := region.base + region.size - cursor;
    var logicalSpan := if scanSpan < remaining then scanSpan else remaining;
    var reach := SatAdd(logicalSpan, width - 1);
    ScanChunk(index, cursor, logicalSpan, if remaining < reach then remaining else reach)
  }

  /** A chunk takes exactly the positions of its span from the rest of its region. */
  lemma ChunkTakes(region: MemoryRegion, index: nat, cursor: U64, width: nat, alignment: U64, scanSpan: U64)
    requires 0 < width <= 8 && 0 < alignment && 0 < scanSpan && scanSpan % alignment == 0
    requires region.base <= cursor && cursor + width <= region.base + region.size <= MAX_U64
    ensures var c, limit := ChunkAt(region, index, cursor, width, scanSpan), Limit(region, width);
            ChunkPositions(c, width, alignment) + Grid(cursor + c.logicalSpan, limit, alignment)
                == Grid(cursor, limit, alignment)
  {
    var c, limit := ChunkAt(region, index, cursor, width, scanSpan), Limit(region, width);
    var mid := cursor + c.logicalSpan;
    assert ChunkPositions(c, width, alignment) == Grid(cursor, if mid < limit then mid else limit, alignment);
    if c.logicalSpan == scanSpan {
      GridSplits(cursor, mid, limit, alignment);
    } else {
      assert Grid(mid, limit, alignment) == [];
    }
  }

  lemma Regroup<T>(a: seq<T>, b: seq<T>, c: seq<T>)
    ensures a + (b + c) == (a + b) + c
  {
  }

  /** One region's chunks. The address arithmetic cannot overflow, so the code's checked additions never
      fail here. */
  method PlanRegion(regions: seq<MemoryRegion>, f: RegionFilter, index: nat, width: nat, alignment: U64, scanSpan: U64)
    returns (chunks: seq<ScanChunk>)
    requires index < |regions| && Scannable(regions[index], f) && regions[index].base + regions[index].size <= MAX_U64
    requires 0 < width <= 8 && 0 < alignment && 0 < scanSpan && scanSpan % alignment == 0
    ensures AllChunkPositions(chunks, width, alignment) == RegionPositions(regions[index], width, alignment)
    ensures Spans(chunks) <= regions[index].size
    ensures AllFit(regions, f, chunks)
  {
    var region := regions[index];
    var regionEnd := region.base + region.size;
    chunks := [];
    var cursor := region.base;
    ghost var limit := Limit(region, width);
    while cursor + width <= regionEnd
      invariant region.base <= cursor <= regionEnd
      invariant AllChunkPositions(chunks, width, alignment) + Grid(cursor, limit, alignment)
          == RegionPositions(region, width, alignment)
      invariant Spans(chunks) == cursor - region.base
      invariant AllFit(regions, f, chunks)
      decreases regionEnd - cursor
    {
      var remaining := regionEnd - cursor;
      var logicalSpan := if scanSpan < remaining then scanSpan else remaining;
      var overlap := width - 1;
      var reach := SatAdd(logicalSpan, overlap);
      var readLen := if remaining < reach then remaining else reach;
      var chunk := ScanChunk(index, cursor, logicalSpan, readLen);
      assert chunk == ChunkAt(region, index, cursor, width, scanSpan);
      ChunkTakes(region, index, cursor, width, alignment, scanSpan);
      OneMoreChunk(chunks, chunk, width, alignment);
      Regroup(AllChunkPositions(chunks, width, alignment), ChunkPositions(chunk, width, alignment),
              Grid(cursor + logicalSpan, limit, alignment));
      chunks := chunks + [chunk];
      cursor := cursor + logicalSpan;
    }
    assert Grid(cursor, limit, alignment) == [];
    assert AllChunkPositions(chunks, width, alignment) + [] == AllChunkPositions(chunks, width, alignment);
  }

  ghost predicate AllFit(regions: seq<MemoryRegion>, f: RegionFilter, chunks: seq<ScanChunk>) {
    forall c | c in chunks :: ChunkFits(regions, f, c)
  }

  /** A plan for the first `i` regions. */
  ghost predicate PlannedUpTo(regions: seq<MemoryRegion>, f: RegionFilter, i: nat, chunks: seq<ScanChunk>,
      width: nat, alignment: nat)
    requires 0 < width && 0 < alignment && i <= |regions|
  {
    && AllChunkPositions(chunks, width, alignment) == Positions(regions[..i], f, width, alignment)
    && Spans(chunks) <= Sizes(regions[..i], f)
  }

  /** The chunks of one more region extend the plan by its positions. */
  lemma OneMoreRegion(regions: seq<MemoryRegion>, f: RegionFilter, i: nat, chunks: seq<ScanChunk>,
      more: seq<ScanChunk>, width: nat, alignment: nat)
    requires 0 < width && 0 < alignment && i < |regions|
    requires PlannedUpTo(regions, f, i, chunks, width, alignment)
    requires if Scannable(regions[i], f) then
               && AllChunkPositions(more, width, alignment) == RegionPositions(regions[i], width, alignment)
               && Spans(more) <= regions[i].size
             else more == []
    ensures PlannedUpTo(regions, f, i + 1, chunks + more, width, alignment)
  {
    assert regions[..i + 1][..i] == regions[..i];
    ChunksConcatenate(chunks, more, width, alignment);
  }

  /** The whole plan visits exactly the positions of a sequential scan, each once and in order, or fails
      because a scannable region runs past the end of the address space. */
  method PlanChunks(regions: seq<MemoryRegion>, f: RegionFilter, width: nat, alignment: U64, chunkSize: U64)
    returns (r: Option<seq<ScanChunk>>)
    requires 0 < width <= 8 && 0 < alignment
    ensures r.None? <==> exists i :: 0 <= i < |regions| && Scannable(regions[i], f) && End(regions[i]).None?
    ensures r.Some? ==>
              && AllChunkPositions(r.value, width, alignment) == Positions(regions, f, width, alignment)
              && Spans(r.value) <= Sizes(regions, f) && AllFit(regions, f, r.value)
  {
    var scanSpan := AlignedScanSpan(chunkSize, alignment);
    var chunks: seq<ScanChunk> := [];
    for i := 0 to |regions|
      invariant forall j :: 0 <= j < i && Scannable(regions[j], f) ==> End(regions[j]).Some?
      invariant PlannedUpTo(regions, f, i, chunks, width, alignment) && AllFit(regions, f, chunks)
    {
      var more: seq<ScanChunk> := [];
      if Scannable(regions[i], f) {
        if End(regions[i]).None? {
          return None;
        }
        more := PlanRegion(regions, f, i, width, alignment, scanSpan);
      }
      OneMoreRegion(regions, f, i, chunks, more, width, alignment);
      chunks := chunks + more;
    }
    assert regions[..|regions|] == regions;
    return Some(chunks);
  }

  lemma {:induction false} ChunksConcatenate(a: seq<ScanChunk>, b: seq<ScanChunk>, width: nat, alignment: nat)
    requires 0 < width && 0 < alignment
    ensures AllChunkPositions(a + b, width, alignment)
        == AllChunkPositions(a, width, alignment) + AllChunkPositions(b, width, alignment)
    ensures Spans(a + b) == Spans(a) + Spans(b)
    decreases |b|
  {
    if b == [] {
      assert a + b == a;
    } else {
      var init, last := b[..|b| - 1], b[|b| - 1];
      ChunksConcatenate(a, init, width, alignment);
      assert b == init + [last] && a + b == (a + init) + [last];
      assert AllChunkPositions(a + b, width, alignment)
          == AllChunkPositions(a + init, width, alignment) + ChunkPositions(last, width, alignment) by {
        OneMoreChunk(a + init, last, width, alignment);
      }
      assert Spans(a + b) == Spans(a + init) + last.logicalSpan by {
        OneMoreChunk(a + init, last, width, alignment);
      }
      Regroup(AllChunkPositions(a, width, alignment), AllChunkPositions(init, width, alignment),
              ChunkPositions(last, width, alignment));
    }
  }

  /** A place for a value: aligned from the base of a scannable region, and wholly inside it. */
  ghost predicate IsPlace(regions: seq<MemoryRegion>, f: RegionFilter, width: nat, alignment: nat, p: nat)
    requires 0 < alignment
  {
    exists i :: 0 <= i < |regions| && IsPlaceIn(regions[i], f, width, alignment, p)
  }

  predicate IsPlaceIn(r: MemoryRegion, f: RegionFilter, width: nat, alignment: nat, p: nat)
    requires 0 < alignment
  {
    Scannable(r, f) && r.base <= p && p + width <= r.base + r.size && (p - r.base) % alignment == 0
  }

  /** The positions are exactly those places. */
  lemma {:induction false} PositionsAreThePlaces(regions: seq<MemoryRegion>, f: RegionFilter, width: nat,
      alignment: nat, p: nat)
    requires 0 < width && 0 < alignment
    ensures p in Positions(regions, f, width, alignment) <==> IsPlace(regions, f, width, alignment, p)
  {
    if regions != [] {
      var n := |regions| - 1;
      var init, last := regions[..n], regions[n];
      PositionsAreThePlaces(init, f, width, alignment, p);
      GridMembers(last.base, Limit(last, width), alignment, p);
      assert p in RegionPositions(last, width, alignment) && Scannable(last, f)
          <==> IsPlaceIn(last, f, width, alignment, p);
      if i :| 0 <= i < |regions| && IsPlaceIn(regions[i], f, width, alignment, p) {
        assert i < n ==> IsPlaceIn(init[i], f, width, alignment, p);
      }
      if i :| 0 <= i < n && IsPlaceIn(init[i], f, width, alignment, p) {
        assert IsPlaceIn(regions[i], f, width, alignment, p);
      }
    }
  }

  /** A worker evaluates a place of a chunk if it starts in the span and ends in the buffer. */
  predicate IsPlaceInChunk(c: ScanChunk, width: nat, alignment: nat, p: nat)
    requires 0 < alignment
  {
    && c.address <= p < c.address + c.logicalSpan && p + width <= c.address + c.readLen
    && (p - c.address) % alignment == 0
  }

  lemma {:induction false} ChunkPositionsAreThePlaces(chunks: seq<ScanChunk>, width: nat, alignment: nat, p: nat)
    requires 0 < width && 0 < alignment
    ensures p in AllChunkPositions(chunks, width, alignment)
            <==> exists i :: 0 <= i < |chunks| && IsPlaceInChunk(chunks[i], width, alignment, p)
  {
    if chunks != [] {
      var n := |chunks| - 1;
      var init, last := chunks[..n], chunks[n];
      ChunkPositionsAreThePlaces(init, width, alignment, p);
      GridMembers(last.address, PositionsEnd(last, width), alignment, p);
      assert p in ChunkPositions(last, width, alignment) <==> IsPlaceInChunk(last, width, alignment, p);
      if i :| 0 <= i < |chunks| && IsPlaceInChunk(chunks[i], width, alignment, p) {
        assert i < n ==> IsPlaceInChunk(init[i], width, alignment, p);
      }
      if i :| 0 <= i < n && IsPlaceInChunk(init[i], width, alignment, p) {
        assert IsPlaceInChunk(chunks[i], width, alignment, p);
      }
    }
  }

  /** Positions ascend strictly when the regions are sorted and disjoint, so no address is visited twice. */
  lemma {:induction false} PositionsAscend(regions: seq<MemoryRegion>, f: RegionFilter, width: nat, alignment: nat)
    requires 0 < width && 0 < alignment && Disjoint(regions)
    ensures Ascending(Positions(regions, f, width, alignment))
    ensures regions != [] ==>
      AllBelow(Positions(regions, f, width, alignment), regions[|regions| - 1].base + regions[|regions| - 1].size)
  {
    if regions != [] {
      var n := |regions| - 1;
      var init, last := regions[..n], regions[n];
      PositionsAscend(init, f, width, alignment);
      GridAscends(last.base, Limit(last, width), alignment);
      if 0 < n {
        assert regions[n - 1].base + regions[n - 1].size <= last.base;
      }
      AscendingAppend(Positions(init, f, width, alignment), RegionPositions(last, width, alignment), last.base);
    }
  }

  /** The bytes of a chunk that a scan of these positions accounts for: up to one step past the last of them. */
  function Covered(c: ScanChunk, visited: seq<nat>, alignment: nat): int {
    if visited == [] then 0
    else
      var past := visited[|visited| - 1] + alignment - c.address;
      if past < c.logicalSpan then past else c.logicalSpan
  }

  /** The evaluation loop of one chunk visits exactly its positions, and its checked additions never fail. */
  method EvaluateChunk(c: ScanChunk, width: nat, alignment: U64, scanSpan: U64)
    returns (visited: seq<nat>, covered: nat)
    requires 0 < width <= 8 && 0 < alignment && 0 < scanSpan && scanSpan % alignment == 0
    requires 0 < c.logicalSpan <= scanSpan && c.readLen <= MAX_BUFFER && c.address + c.readLen <= MAX_U64
    ensures visited == ChunkPositions(c, width, alignment)
    ensures covered == Covered(c, visited, alignment)
  {
    visited, covered := [], 0;
    var offset: U64 := 0;
    while offset < c.logicalSpan && SatAdd(offset, width) <= c.readLen
      invariant offset <= scanSpan && offset % alignment == 0 && covered <= c.logicalSpan
      invariant visited + Grid(c.address + offset, PositionsEnd(c, width), alignment)
          == ChunkPositions(c, width, alignment)
      invariant covered == Covered(c, visited, alignment)
      invariant offset == if visited == [] then 0 else visited[|visited| - 1] + alignment - c.address
      decreases if offset < c.logicalSpan then c.logicalSpan - offset else 0
    {
      RoomForAStep(offset, scanSpan, alignment);
      OnePositionTaken(visited, c.address + offset, PositionsEnd(c, width), alignment);
      visited := visited + [c.address + offset];
      covered := if SatAdd(offset, alignment) < c.logicalSpan then SatAdd(offset, alignment) else c.logicalSpan;
      offset := offset + alignment;
    }
    assert Grid(c.address + offset, PositionsEnd(c, width), alignment) == [];
  }

  lemma OnePositionTaken(visited: seq<nat>, from: nat, limit: nat, alignment: nat)
    requires 0 < alignment && from < limit
    ensures visited + Grid(from, limit, alignment) == visited + [from] + Grid(from + alignment, limit, alignment)
  {
  }

  /** Below a multiple of the step there is room for one more step. */
  lemma RoomForAStep(offset: nat, span: nat, step: nat)
    requires 0 < step && offset < span && offset % step == 0 && span % step == 0
    ensures offset + step <= span && (offset + step) % step == 0
  {
    var p, q := offset / step, span / step;
    assert offset == p * step && span == q * step;
    if p < q {
      StepsAreOrdered(p + 1, q, step);
    } else {
      StepsAreOrdered(q, p, step);
    }
    Remainder(offset + step, p + 1, 0, step);
  }
}
