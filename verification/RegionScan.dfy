/** Scanning sorted regions in overlapping chunks for the aligned addresses whose bytes are wanted. The
    pattern scan and the pointer search walk memory by this same loop, each with its own test. */
module RegionScan {
  import opened Numbers
  import opened Memory

  datatype AnalysisError =
    | InvalidLimit | EmptyPattern | InvalidPatternToken | InvalidPointerSize | AddressOverflow | ReadError

  datatype Query = Query(memory: Bytes, filter: RegionFilter, chunk: nat, width: nat, alignment: nat,
      accept: seq<Byte> -> bool)

  datatype Found = Found(addresses: seq<nat>, truncated: bool, readFailures: U64)

  predicate WellFormed(q: Query) {
    0 < q.width <= q.chunk <= MAX_U64 && 0 < q.alignment
  }

  /** Regions that are looked into at all. */
  predicate Eligible(q: Query, r: MemoryRegion) {
    Scannable(r, q.filter) && q.width <= r.size
  }

  /** How much the chunk at `cursor` reads: the chunk and an overlap that lets values cross its end. */
  function ReadLen(q: Query, r: MemoryRegion, cursor: nat): nat
    requires WellFormed(q) && cursor <= r.base + r.size
  {
    var remaining := r.base + r.size - cursor;
    if remaining < q.chunk + q.width - 1 then remaining else q.chunk + q.width - 1
  }

  /** The chunk an address starts in, counting chunks from `from`. */
  function ChunkOf(from: nat, p: nat, chunk: nat): (cursor: nat)
    requires 0 < chunk && from <= p
    ensures from <= cursor <= p < cursor + chunk
    decreases p - from
  {
    if p < from + chunk then from else ChunkOf(from + chunk, p, chunk)
  }

  /** A whole number of steps. */
  predicate Multiple(d: nat, step: nat)
    requires 0 < step
  {
    if d < step then d == 0 else Multiple(d - step, step)
  }

  lemma {:induction false} MultipleIsRemainder(d: nat, step: nat)
    requires 0 < step
    ensures Multiple(d, step) <==> d % step == 0
    decreases d
  {
    if step <= d {
      MultipleIsRemainder(d - step, step);
      StepDown(d, step);
    } else {
      Remainder(d, 0, d, step);
    }
  }

  ghost predicate ChunkReads(q: Query, r: MemoryRegion, cursor: nat)
    requires WellFormed(q) && cursor <= r.base + r.size
  {
    Readable(q.memory, cursor, ReadLen(q, r, cursor))
  }

  // The reference

  /** An aligned address of a region at which an accepted value fits. */
  ghost predicate Matches(q: Query, r: MemoryRegion, p: nat)
    requires WellFormed(q)
  {
    && r.base <= p && p + q.width <= r.base + r.size && Multiple(p - r.base, q.alignment)
    && q.accept(Value(q.memory, p, q.width))
  }

  /** A match is found if its chunk can be read. */
  ghost predicate Reached(q: Query, r: MemoryRegion, p: nat)
    requires WellFormed(q)
  {
    Matches(q, r, p) && ChunkReads(q, r, ChunkOf(r.base, p, q.chunk))
  }

  /** The matches from the region's base up to `limit`, in order. */
  ghost function NaiveUpTo(q: Query, r: MemoryRegion, limit: nat): seq<nat>
    requires WellFormed(q)
    decreases limit
  {
    if limit <= r.base then [] else NaiveUpTo(q, r, limit - 1) + if Matches(q, r, limit - 1) then [limit - 1] else []
  }

  ghost function ReachedUpTo(q: Query, r: MemoryRegion, limit: nat): seq<nat>
    requires WellFormed(q)
    decreases limit
  {
    if limit <= r.base then [] else ReachedUpTo(q, r, limit - 1) + if Reached(q, r, limit - 1) then [limit - 1] else []
  }

  ghost function NaiveMatches(q: Query, regions: seq<MemoryRegion>): seq<nat>
    requires WellFormed(q)
  {
    if regions == [] then []
    else
      var r := regions[|regions| - 1];
      NaiveMatches(q, regions[..|regions| - 1]) + if Eligible(q, r) then NaiveUpTo(q, r, r.base + r.size) else []
  }

  ghost function ReachedMatches(q: Query, regions: seq<MemoryRegion>): seq<nat>
    requires WellFormed(q)
  {
    if regions == [] then []
    else
      var r := regions[|regions| - 1];
      ReachedMatches(q, regions[..|regions| - 1]) + if Eligible(q, r) then ReachedUpTo(q, r, r.base + r.size) else []
  }

  /** The chunks of a region, from `cursor` on, that cannot be read. */
  ghost function FailuresFrom(q: Query, r: MemoryRegion, cursor: nat): nat
    requires WellFormed(q)
    decreases r.base + r.size - cursor
  {
    if r.base + r.size < cursor + q.width then 0
    else (if ChunkReads(q, r, cursor) then 0 else 1) + FailuresFrom(q, r, cursor + q.chunk)
  }

  ghost function Failures(q: Query, regions: seq<MemoryRegion>): nat
    requires WellFormed(q)
  {
    if regions == [] then 0
    else
      var r := regions[|regions| - 1];
      Failures(q, regions[..|regions| - 1]) + if Eligible(q, r) then FailuresFrom(q, r, r.base) else 0
  }

  /** The regions before the first one that runs past the end of the address space. */
  ghost function BeforeOverflow(q: Query, regions: seq<MemoryRegion>): (prefix: seq<MemoryRegion>)
    ensures prefix <= regions
  {
    if regions == [] then []
    else
      var rest := BeforeOverflow(q, regions[..|regions| - 1]);
      var r := regions[|regions| - 1];
      if |rest| < |regions| - 1 || (Eligible(q, r) && End(r).None?) then rest else regions
  }

  lemma {:induction false} OverflowStops(q: Query, regions: seq<MemoryRegion>, k: nat)
    requires k < |regions| && Eligible(q, regions[k]) && End(regions[k]).None?
    requires forall j :: 0 <= j < k && Eligible(q, regions[j]) ==> End(regions[j]).Some?
    ensures BeforeOverflow(q, regions) == regions[..k]
    decreases |regions|
  {
    var n := |regions| - 1;
    if k < n {
      OverflowStops(q, regions[..n], k);
    } else {
      NoOverflow(q, regions[..n]);
    }
  }

  lemma {:induction false} NoOverflow(q: Query, regions: seq<MemoryRegion>)
    requires forall j :: 0 <= j < |regions| && Eligible(q, regions[j]) ==> End(regions[j]).Some?
    ensures BeforeOverflow(q, regions) == regions
  {
    if regions != [] {
      NoOverflow(q, regions[..|regions| - 1]);
    }
  }

  lemma {:induction false} ReachedPrefix(q: Query, regions: seq<MemoryRegion>, k: nat)
    requires WellFormed(q) && k <= |regions|
    ensures ReachedMatches(q, regions[..k]) <= ReachedMatches(q, regions)
    decreases |regions| - k
  {
    if k < |regions| {
      ReachedPrefix(q, regions, k + 1);
      assert regions[..k + 1][..k] == regions[..k];
    } else {
      assert regions[..k] == regions;
    }
  }

  lemma {:induction false} ReachedUpToPrefix(q: Query, r: MemoryRegion, low: nat, high: nat)
    requires WellFormed(q) && low <= high
    ensures ReachedUpTo(q, r, low) <= ReachedUpTo(q, r, high)
    decreases high
  {
    if low < high {
      ReachedUpToPrefix(q, r, low, high - 1);
    }
  }

  /** Past the last place where a value fits there is nothing more to find. */
  lemma {:induction false} NothingPastTheEnd(q: Query, r: MemoryRegion, limit: nat)
    requires WellFormed(q) && r.base + r.size < limit + q.width
    ensures r.base + r.size <= limit || ReachedUpTo(q, r, limit) == ReachedUpTo(q, r, r.base + r.size)
    decreases r.base + r.size - limit
  {
    if limit < r.base + r.size {
      NothingPastTheEnd(q, r, limit + 1);
    }
  }

  /** Counting chunks from one of their starts makes no difference. */
  lemma {:induction false} ChunkContains(from: nat, cursor: nat, p: nat, chunk: nat)
    requires 0 < chunk && from <= cursor <= p && ChunkOf(from, cursor, chunk) == cursor
    ensures ChunkOf(from, p, chunk) == ChunkOf(cursor, p, chunk)
    decreases cursor - from
  {
    if from < cursor {
      ChunkContains(from + chunk, cursor, p, chunk);
    }
  }

  /** Nothing is reached from a chunk that cannot be read. */
  lemma {:induction false} UnreadableChunk(q: Query, r: MemoryRegion, cursor: nat, limit: nat)
    requires WellFormed(q) && r.base <= cursor <= limit <= cursor + q.chunk && cursor <= r.base + r.size
    requires ChunkOf(r.base, cursor, q.chunk) == cursor && !ChunkReads(q, r, cursor)
    ensures ReachedUpTo(q, r, limit) == ReachedUpTo(q, r, cursor)
    decreases limit
  {
    if cursor < limit {
      UnreadableChunk(q, r, cursor, limit - 1);
      ChunkContains(r.base, cursor, limit - 1, q.chunk);
    }
  }

  function Take(s: seq<nat>, n: nat): seq<nat> {
    if |s| <= n then s else s[..n]
  }

  /** When the limit is reached, the rest of a region adds nothing. */
  lemma RestOfRegionIsCutOff(q: Query, r: MemoryRegion, prior: seq<nat>, low: nat, high: nat, n: nat)
    requires WellFormed(q) && low <= high && n <= |prior + ReachedUpTo(q, r, low)|
    ensures Take(prior + ReachedUpTo(q, r, low), n) == Take(prior + ReachedUpTo(q, r, high), n)
  {
  }

  lemma EnoughIsEnough(s: seq<nat>, longer: seq<nat>, n: nat)
    requires s <= longer && n <= |s|
    ensures Take(s, n) == Take(longer, n)
  {
  }

  /** The test of one address, on the bytes that were read for its chunk. */
  method IsReached(q: Query, r: MemoryRegion, cursor: U64, offset: nat, buffer: seq<Byte>) returns (b: bool)
    requires WellFormed(q) && r.base <= cursor && cursor + q.width <= r.base + r.size <= MAX_U64
    requires ChunkOf(r.base, cursor, q.chunk) == cursor && ChunkReads(q, r, cursor)
    requires |buffer| == ReadLen(q, r, cursor) && forall k :: 0 <= k < |buffer| ==> buffer[k] == q.memory[cursor + k]
    requires offset + q.width <= |buffer|
    ensures b <==> Reached(q, r, cursor + offset)
  {
    var address := SatAdd(cursor, offset);
    ChunkContains(r.base, cursor, address, q.chunk);
    MultipleIsRemainder(address - r.base, q.alignment);
    assert buffer[offset..offset + q.width] == Value(q.memory, address, q.width);
    b := (address - r.base) % q.alignment == 0 && q.accept(buffer[offset..offset + q.width]);
  }

  /** One more address, after all before it. */
  method LookAt(q: Query, r: MemoryRegion, cursor: U64, offset: nat, buffer: seq<Byte>, ghost prior: seq<nat>,
      before: seq<nat>)
    returns (addresses: seq<nat>)
    requires WellFormed(q) && r.base <= cursor && cursor + q.width <= r.base + r.size <= MAX_U64
    requires ChunkOf(r.base, cursor, q.chunk) == cursor && ChunkReads(q, r, cursor)
    requires |buffer| == ReadLen(q, r, cursor) && forall k :: 0 <= k < |buffer| ==> buffer[k] == q.memory[cursor + k]
    requires offset + q.width <= |buffer| && before == prior + ReachedUpTo(q, r, cursor + offset)
    ensures addresses == prior + ReachedUpTo(q, r, cursor + (offset + 1)) && |addresses| <= |before| + 1
  {
    OneMoreReached(q, r, prior, cursor + offset);
    var reached := IsReached(q, r, cursor, offset, buffer);
    return if reached then before + [SatAdd(cursor, offset)] else before;
  }

  /** One chunk that was read: its matches follow the earlier ones, until there are enough. */
  method ScanChunk(q: Query, r: MemoryRegion, cursor: U64, buffer: seq<Byte>, ghost prior: seq<nat>,
      before: seq<nat>, maxResults: nat)
    returns (addresses: seq<nat>)
    requires WellFormed(q) && r.base <= cursor && cursor + q.width <= r.base + r.size <= MAX_U64
    requires ChunkOf(r.base, cursor, q.chunk) == cursor && ChunkReads(q, r, cursor)
    requires |buffer| == ReadLen(q, r, cursor) && forall k :: 0 <= k < |buffer| ==> buffer[k] == q.memory[cursor + k]
    requires before == prior + ReachedUpTo(q, r, cursor) && |before| < maxResults
    ensures addresses == Take(prior + ReachedUpTo(q, r, cursor + |buffer| - q.width + 1), maxResults)
  {
    addresses := before;
    var maxOffset := |buffer| - q.width;
    var offset := 0;
    while offset <= maxOffset && |addresses| < maxResults
      invariant offset <= maxOffset + 1
      invariant addresses == prior + ReachedUpTo(q, r, cursor + offset) && |addresses| <= maxResults
    {
      addresses := LookAt(q, r, cursor, offset, buffer, prior, addresses);
      offset := offset + 1;
    }
    if offset <= maxOffset {
      RestOfRegionIsCutOff(q, r, prior, cursor + offset, cursor + maxOffset + 1, maxResults);
    }
  }

  lemma OneMoreReached(q: Query, r: MemoryRegion, prior: seq<nat>, p: nat)
    requires WellFormed(q) && r.base <= p
    ensures prior + ReachedUpTo(q, r, p + 1)
            == if Reached(q, r, p) then (prior + ReachedUpTo(q, r, p)) + [p] else prior + ReachedUpTo(q, r, p)
  {
  }

  function Within(r: MemoryRegion, cursor: nat): nat {
    if cursor < r.base + r.size then cursor else r.base + r.size
  }

  /** Everything from one chunk start to the next is looked at in one chunk. */
  lemma ChunkReachesTheNext(q: Query, r: MemoryRegion, cursor: nat)
    requires WellFormed(q) && r.base <= cursor && cursor + q.width <= r.base + r.size
    requires ChunkOf(r.base, cursor, q.chunk) == cursor
    ensures var next := cursor + ReadLen(q, r, cursor) - q.width + 1;
            && cursor <= next <= cursor + q.chunk && next <= r.base + r.size
            && ReachedUpTo(q, r, next) == ReachedUpTo(q, r, Within(r, cursor + q.chunk))
  {
    var next := cursor + ReadLen(q, r, cursor) - q.width + 1;
    if next < cursor + q.chunk {
      NothingPastTheEnd(q, r, next);
      if cursor + q.chunk < r.base + r.size {
        NothingPastTheEnd(q, r, cursor + q.chunk);
      }
    }
  }

  /** What is done with one chunk that can hold a value. */
  method VisitChunk(q: Query, r: MemoryRegion, cursor: U64, readLen: nat, ghost prior: seq<nat>, before: seq<nat>,
      maxResults: nat)
    returns (addresses: seq<nat>, failed: bool)
    requires WellFormed(q) && r.base <= cursor && cursor + q.width <= r.base + r.size <= MAX_U64
    requires ChunkOf(r.base, cursor, q.chunk) == cursor && readLen == ReadLen(q, r, cursor)
    requires before == prior + ReachedUpTo(q, r, cursor) && |before| < maxResults
    ensures addresses == Take(prior + ReachedUpTo(q, r, Within(r, cursor + q.chunk)), maxResults)
    ensures failed <==> !ChunkReads(q, r, cursor)
    ensures failed ==> |addresses| < maxResults
  {
    ChunkReachesTheNext(q, r, cursor);
    var buffer := ReadExact(q.memory, cursor, readLen);
    if buffer.None? {
      UnreadableChunk(q, r, cursor, cursor + readLen - q.width + 1);
      return before, true;
    }
    addresses := ScanChunk(q, r, cursor, buffer.value, prior, before, maxResults);
    return addresses, false;
  }

  /** The next chunk start, or the top of the address space, from where there is nothing left to scan. */
  lemma NextCursor(q: Query, r: MemoryRegion, cursor: U64)
    requires WellFormed(q) && r.base <= cursor && cursor + q.width <= r.base + r.size <= MAX_U64
    requires ChunkOf(r.base, cursor, q.chunk) == cursor
    ensures var next := SatAdd(cursor, q.chunk);
            && cursor < next && Within(r, next) == Within(r, cursor + q.chunk)
            && (next < r.base + r.size ==> ChunkOf(r.base, next, q.chunk) == next)
            && FailuresFrom(q, r, cursor)
               == (if ChunkReads(q, r, cursor) then 0 else 1) + FailuresFrom(q, r, Within(r, next))
  {
    ChunkContains(r.base, cursor, cursor + q.chunk, q.chunk);
  }

  /** The part of a region before the cursor is done: what was reached there is found, and its failures counted. */
  ghost predicate DoneUpTo(q: Query, r: MemoryRegion, cursor: nat, prior: seq<nat>, failuresBefore: U64,
      addresses: seq<nat>, failures: U64)
    requires WellFormed(q)
  {
    && addresses == prior + ReachedUpTo(q, r, Within(r, cursor))
    && var (all, left) := (FailuresFrom(q, r, r.base), FailuresFrom(q, r, Within(r, cursor)));
       left <= all && failures == SatAdd(failuresBefore, all - left)
  }

  /** One chunk is visited, and counted if it cannot be read. */
  method CountChunk(q: Query, r: MemoryRegion, cursor: U64, readLen: nat, ghost prior: seq<nat>,
      ghost failuresBefore: U64, before: seq<nat>, failures: U64, maxResults: nat)
    returns (addresses: seq<nat>, after: U64)
    requires WellFormed(q) && r.base <= cursor && cursor + q.width <= r.base + r.size <= MAX_U64
    requires ChunkOf(r.base, cursor, q.chunk) == cursor && readLen == ReadLen(q, r, cursor)
    requires DoneUpTo(q, r, cursor, prior, failuresBefore, before, failures) && |before| < maxResults
    ensures addresses == Take(prior + ReachedUpTo(q, r, Within(r, cursor + q.chunk)), maxResults)
    ensures after <= SatAdd(failuresBefore, FailuresFrom(q, r, r.base))
    ensures |addresses| < maxResults ==>
              DoneUpTo(q, r, SatAdd(cursor, q.chunk), prior, failuresBefore, addresses, after)
  {
    NextCursor(q, r, cursor);
    var failed;
    addresses, failed := VisitChunk(q, r, cursor, readLen, prior, before, maxResults);
    after := if failed then SatAdd(failures, 1) else failures;
  }

  /** A cursor from where no value fits has the whole region behind it. */
  lemma NothingLeft(q: Query, r: MemoryRegion, cursor: nat, prior: seq<nat>, failuresBefore: U64,
      addresses: seq<nat>, failures: U64)
    requires WellFormed(q) && r.base + r.size < cursor + q.width
    requires DoneUpTo(q, r, cursor, prior, failuresBefore, addresses, failures)
    ensures addresses == prior + ReachedUpTo(q, r, r.base + r.size)
    ensures failures == SatAdd(failuresBefore, FailuresFrom(q, r, r.base))
  {
    NothingPastTheEnd(q, r, cursor);
  }

  /** One region. The cursor saturates, so the loop ends even at the top of the address space. */
  method ScanRegion(q: Query, r: MemoryRegion, prior: seq<nat>, failuresBefore: U64, maxResults: nat)
    returns (addresses: seq<nat>, failures: U64)
    requires WellFormed(q) && q.width <= r.size && r.base + r.size <= MAX_U64 && |prior| < maxResults
    ensures addresses == Take(prior + ReachedUpTo(q, r, r.base + r.size), maxResults)
    ensures failures <= SatAdd(failuresBefore, FailuresFrom(q, r, r.base))
    ensures |addresses| < maxResults ==> failures == SatAdd(failuresBefore, FailuresFrom(q, r, r.base))
  {
    var end := r.base + r.size;
    var cursor: U64 := r.base;
    addresses, failures := prior, failuresBefore;
    while cursor < end
      invariant r.base <= cursor && (cursor < end ==> ChunkOf(r.base, cursor, q.chunk) == cursor)
      invariant DoneUpTo(q, r, cursor, prior, failuresBefore, addresses, failures) && |addresses| < maxResults
      decreases end - cursor
    {
      var remaining := end - cursor;
      var reach := SatAdd(q.chunk, q.width - 1);
      var readLen := if remaining < reach then remaining else reach;
      if readLen < q.width {
        break;
      }
      NextCursor(q, r, cursor);
      addresses, failures := CountChunk(q, r, cursor, readLen, prior, failuresBefore, addresses, failures, maxResults);
      if maxResults <= |addresses| {
        RestOfRegionIsCutOff(q, r, prior, Within(r, cursor + q.chunk), end, maxResults);
        return;
      }
      cursor := SatAdd(cursor, q.chunk);
    }
    NothingLeft(q, r, cursor, prior, failuresBefore, addresses, failures);
  }

  /** The regions before the `i`-th are done, and none of them was too long. */
  ghost predicate ScannedUpTo(q: Query, regions: seq<MemoryRegion>, i: nat, addresses: seq<nat>, failures: U64)
    requires WellFormed(q) && i <= |regions|
  {
    && addresses == ReachedMatches(q, regions[..i]) && failures == SatAdd(0, Failures(q, regions[..i]))
    && forall j :: 0 <= j < i && Eligible(q, regions[j]) ==> End(regions[j]).Some?
  }

  /** One more region: passed over if it cannot hold a value. */
  method ScanNext(q: Query, regions: seq<MemoryRegion>, i: nat, addresses: seq<nat>, failures: U64, maxResults: nat)
    returns (found: seq<nat>, failed: U64)
    requires WellFormed(q) && i < |regions| && (Eligible(q, regions[i]) ==> End(regions[i]).Some?)
    requires ScannedUpTo(q, regions, i, addresses, failures) && |addresses| < maxResults
    ensures found == Take(ReachedMatches(q, regions[..i + 1]), maxResults)
    ensures failed <= SatAdd(0, Failures(q, regions[..i + 1]))
    ensures |found| < maxResults ==> ScannedUpTo(q, regions, i + 1, found, failed)
  {
    OneMoreScanned(q, regions, i);
    if !Eligible(q, regions[i]) {
      return addresses, failures;
    }
    found, failed := ScanRegion(q, regions[i], addresses, failures, maxResults);
  }

  /** The whole scan: the matches reached, in order and up to the limit; or nothing, if a region that runs
      past the end of the address space comes before the limit is reached. */
  method ScanRegions(q: Query, regions: seq<MemoryRegion>, maxResults: nat) returns (r: Option<Found>)
    requires WellFormed(q) && 0 < maxResults
    ensures var all := ReachedMatches(q, BeforeOverflow(q, regions));
            && (r.None? <==> BeforeOverflow(q, regions) != regions && |all| < maxResults)
            && (r.Some? ==>
                  && r.value.addresses == Take(all, maxResults)
                  && (r.value.truncated <==> maxResults <= |all|)
                  && r.value.readFailures <= Failures(q, regions)
                  && (!r.value.truncated ==> r.value.readFailures == SatAdd(0, Failures(q, regions))))
  {
    var addresses, failures := [], 0;
    for i := 0 to |regions|
      invariant ScannedUpTo(q, regions, i, addresses, failures) && |addresses| < maxResults
    {
      if Eligible(q, regions[i]) && End(regions[i]).None? {
        OverflowStops(q, regions, i);
        return None;
      }
      addresses, failures := ScanNext(q, regions, i, addresses, failures, maxResults);
      if maxResults <= |addresses| {
        TruncatedEarly(q, regions, i + 1, maxResults);
        FailuresGrow(q, regions, i + 1);
        return Some(Found(addresses, true, failures));
      }
    }
    assert regions[..|regions|] == regions;
    NoOverflow(q, regions);
    return Some(Found(addresses, false, failures));
  }

  lemma OneMoreScanned(q: Query, regions: seq<MemoryRegion>, i: nat)
    requires WellFormed(q) && i < |regions|
    ensures var r := regions[i];
            && ReachedMatches(q, regions[..i + 1])
               == ReachedMatches(q, regions[..i]) + (if Eligible(q, r) then ReachedUpTo(q, r, r.base + r.size) else [])
            && Failures(q, regions[..i + 1])
               == Failures(q, regions[..i]) + (if Eligible(q, r) then FailuresFrom(q, r, r.base) else 0)
  {
    assert regions[..i + 1][..i] == regions[..i];
  }

  lemma {:induction false} FailuresGrow(q: Query, regions: seq<MemoryRegion>, k: nat)
    requires WellFormed(q) && k <= |regions|
    ensures Failures(q, regions[..k]) <= Failures(q, regions)
    decreases |regions| - k
  {
    if k < |regions| {
      FailuresGrow(q, regions, k + 1);
      assert regions[..k + 1][..k] == regions[..k];
    } else {
      assert regions[..k] == regions;
    }
  }

  /** Once there are enough, later regions do not matter. */
  lemma {:induction false} TruncatedEarly(q: Query, regions: seq<MemoryRegion>, k: nat, maxResults: nat)
    requires WellFormed(q) && k <= |regions| && maxResults <= |ReachedMatches(q, regions[..k])|
    requires forall j :: 0 <= j < k && Eligible(q, regions[j]) ==> End(regions[j]).Some?
    ensures var all := ReachedMatches(q, BeforeOverflow(q, regions));
            maxResults <= |all| && Take(all, maxResults) == Take(ReachedMatches(q, regions[..k]), maxResults)
  {
    var good := BeforeOverflow(q, regions);
    GoodPrefix(q, regions, k);
    ReachedPrefix(q, good, k);
    assert good[..k] == regions[..k];
    EnoughIsEnough(ReachedMatches(q, regions[..k]), ReachedMatches(q, good), maxResults);
  }

  lemma {:induction false} GoodPrefix(q: Query, regions: seq<MemoryRegion>, k: nat)
    requires k <= |regions| && forall j :: 0 <= j < k && Eligible(q, regions[j]) ==> End(regions[j]).Some?
    ensures k <= |BeforeOverflow(q, regions)|
    decreases |regions|
  {
    if k < |regions| {
      GoodPrefix(q, regions[..|regions| - 1], k);
    } else {
      NoOverflow(q, regions);
    }
  }

  // What the scan means

  ghost function Unreadable(q: Query, r: MemoryRegion, starts: seq<nat>): seq<nat>
    requires WellFormed(q) && forall i :: 0 <= i < |starts| ==> starts[i] <= r.base + r.size
  {
    if starts == [] then []
    else (if ChunkReads(q, r, starts[0]) then [] else [starts[0]]) + Unreadable(q, r, starts[1..])
  }

  /** The failures of a region are its chunks that cannot be read: those that start a whole number of chunks from its
      base, where a value still fits. */
  lemma {:induction false} FailuresAreTheUnreadable(q: Query, r: MemoryRegion, cursor: nat)
    requires WellFormed(q) && q.width <= r.size
    ensures var starts := Grid(cursor, r.base + r.size - q.width + 1, q.chunk);
            && (forall i :: 0 <= i < |starts| ==> starts[i] <= r.base + r.size)
            && FailuresFrom(q, r, cursor) == |Unreadable(q, r, starts)|
    decreases r.base + r.size - cursor
  {
    if cursor + q.width <= r.base + r.size {
      FailuresAreTheUnreadable(q, r, cursor + q.chunk);
    }
  }

  /** What is reached was read. */
  lemma ReachedIsReadable(q: Query, r: MemoryRegion, p: nat)
    requires WellFormed(q) && Reached(q, r, p)
    ensures Readable(q.memory, p, q.width)
  {
    var cursor := ChunkOf(r.base, p, q.chunk);
    assert p + q.width <= cursor + ReadLen(q, r, cursor);
  }

  lemma {:induction false} ReachedMembers(q: Query, r: MemoryRegion, limit: nat, p: nat)
    requires WellFormed(q)
    ensures p in ReachedUpTo(q, r, limit) <==> r.base <= p < limit && Reached(q, r, p)
    decreases limit
  {
    if r.base < limit {
      ReachedMembers(q, r, limit - 1, p);
    }
  }

  lemma {:induction false} ReachedAscend(q: Query, r: MemoryRegion, limit: nat)
    requires WellFormed(q)
    ensures Ascending(ReachedUpTo(q, r, limit)) && AllBelow(ReachedUpTo(q, r, limit), limit)
    ensures forall i :: 0 <= i < |ReachedUpTo(q, r, limit)| ==> r.base <= ReachedUpTo(q, r, limit)[i]
    decreases limit
  {
    if r.base < limit {
      ReachedAscend(q, r, limit - 1);
      AscendingAppend(ReachedUpTo(q, r, limit - 1), if Reached(q, r, limit - 1) then [limit - 1] else [], limit - 1);
    }
  }

  lemma {:induction false} NoFailures(q: Query, r: MemoryRegion, cursor: nat, p: nat)
    requires WellFormed(q) && r.base <= cursor && ChunkOf(r.base, cursor, q.chunk) == cursor
        && FailuresFrom(q, r, cursor) == 0
    requires cursor <= p && p + q.width <= r.base + r.size
    ensures ChunkReads(q, r, ChunkOf(r.base, p, q.chunk))
    decreases r.base + r.size - cursor
  {
    if p < cursor + q.chunk {
      ChunkContains(r.base, cursor, p, q.chunk);
    } else {
      ChunkContains(r.base, cursor, cursor + q.chunk, q.chunk);
      NoFailures(q, r, cursor + q.chunk, p);
    }
  }

  lemma {:induction false} NaiveIsReached(q: Query, r: MemoryRegion, limit: nat)
    requires WellFormed(q) && FailuresFrom(q, r, r.base) == 0
    ensures ReachedUpTo(q, r, limit) == NaiveUpTo(q, r, limit)
    decreases limit
  {
    if r.base < limit {
      NaiveIsReached(q, r, limit - 1);
      if Matches(q, r, limit - 1) {
        NoFailures(q, r, r.base, limit - 1);
      }
    }
  }

  /** If every chunk can be read, chunking makes no difference: the matches are the naive ones, none lost or
      repeated where chunks overlap. */
  lemma {:induction false} WithoutFailuresScanIsNaive(q: Query, regions: seq<MemoryRegion>)
    requires WellFormed(q) && Failures(q, regions) == 0
    ensures ReachedMatches(q, regions) == NaiveMatches(q, regions)
  {
    if regions != [] {
      var r := regions[|regions| - 1];
      WithoutFailuresScanIsNaive(q, regions[..|regions| - 1]);
      if Eligible(q, r) {
        NaiveIsReached(q, r, r.base + r.size);
      }
    }
  }

  /** What is found: exactly the matches of eligible regions whose chunk can be read. */
  lemma {:induction false} FoundExactly(q: Query, regions: seq<MemoryRegion>, p: nat)
    requires WellFormed(q)
    ensures p in ReachedMatches(q, regions)
            <==> exists i :: 0 <= i < |regions| && Eligible(q, regions[i]) && Reached(q, regions[i], p)
  {
    if regions != [] {
      var n := |regions| - 1;
      var r := regions[n];
      FoundExactly(q, regions[..n], p);
      ReachedMembers(q, r, r.base + r.size, p);
      assert forall i :: 0 <= i < n ==> regions[..n][i] == regions[i];
    }
  }

  lemma {:induction false} NoFailuresAnywhere(q: Query, regions: seq<MemoryRegion>, i: nat)
    requires WellFormed(q) && Failures(q, regions) == 0 && i < |regions| && Eligible(q, regions[i])
    ensures FailuresFrom(q, regions[i], regions[i].base) == 0
    decreases |regions|
  {
    if i < |regions| - 1 {
      NoFailuresAnywhere(q, regions[..|regions| - 1], i);
    }
  }

  /** Without failures, what is found is exactly what matches. */
  lemma FoundIfMatching(q: Query, regions: seq<MemoryRegion>, p: nat)
    requires WellFormed(q) && Failures(q, regions) == 0
    ensures p in ReachedMatches(q, regions)
            <==> exists i :: 0 <= i < |regions| && Eligible(q, regions[i]) && Matches(q, regions[i], p)
  {
    FoundExactly(q, regions, p);
    if i :| 0 <= i < |regions| && Eligible(q, regions[i]) && Matches(q, regions[i], p) {
      NoFailuresAnywhere(q, regions, i);
      NoFailures(q, regions[i], regions[i].base, p);
    }
  }

  /** Over disjoint regions every match is found once, in ascending order. */
  lemma {:induction false} MatchesAscend(q: Query, regions: seq<MemoryRegion>)
    requires WellFormed(q) && Disjoint(regions)
    ensures Ascending(ReachedMatches(q, regions))
    ensures regions != [] ==> AllBelow(ReachedMatches(q, regions),
        regions[|regions| - 1].base + regions[|regions| - 1].size)
  {
    if regions != [] {
      var n := |regions| - 1;
      var r := regions[n];
      MatchesAscend(q, regions[..n]);
      if 0 < n {
        assert regions[n - 1].base + regions[n - 1].size <= r.base;
      }
      ReachedAscend(q, r, r.base + r.size);
      AscendingAppend(ReachedMatches(q, regions[..n]), ReachedUpTo(q, r, r.base + r.size), r.base);
    }
  }
}
