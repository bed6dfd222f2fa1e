/** Pointer chains: following one through memory, and finding the pointers that lead to an address. */
module PointerChains {
  import opened Numbers
  import opened Memory
  import opened RegionScan

  const MAX_I64 := 0x7FFF_FFFF_FFFF_FFFF

  /** The number a little-endian pointer stands for. */
  function Decoded(v: seq<Byte>): nat {
    if v == [] then 0 else v[0] + 256 * Decoded(v[1..])
  }

  function PowerOf256(n: nat): nat {
    if n == 0 then 1 else 256 * PowerOf256(n - 1)
  }

  lemma {:induction false} DecodedFits(v: seq<Byte>)
    ensures Decoded(v) < PowerOf256(|v|)
  {
    if v != [] {
      DecodedFits(v[1..]);
    }
  }

  /** Four bytes in little-endian order, the lowest first. */
  function Word(v: seq<Byte>, n: nat): nat
    requires n + 4 <= |v|
  {
    v[n] as nat + 0x100 * v[n + 1] as nat + 0x1_0000 * v[n + 2] as nat + 0x100_0000 * v[n + 3] as nat
  }

  /** The number that four or eight bytes in little-endian order stand for. */
  predicate IsLittleEndian(v: seq<Byte>, n: nat) {
    if |v| == 4 then n == Word(v, 0) else |v| == 8 && n == Word(v, 0) + 0x1_0000_0000 * Word(v, 4)
  }

  lemma DecodedStep(v: seq<Byte>, n: nat)
    requires n < |v|
    ensures Decoded(v[n..]) == v[n] + 256 * Decoded(v[n + 1..])
  {
    assert v[n..][1..] == v[n + 1..];
  }

  lemma FourBytes(v: seq<Byte>, n: nat)
    requires n + 4 <= |v|
    ensures Decoded(v[n..]) == Word(v, n) + 0x1_0000_0000 * Decoded(v[n + 4..])
  {
    DecodedStep(v, n);
    DecodedStep(v, n + 1);
    DecodedStep(v, n + 2);
    DecodedStep(v, n + 3);
  }

  /** Pointers are read in little-endian order, the lowest byte first. */
  lemma PointersAreLittleEndian(v: seq<Byte>)
    requires |v| == 4 || |v| == 8
    ensures IsLittleEndian(v, Decoded(v))
  {
    assert v[0..] == v && Decoded(v[|v|..]) == 0;
    FourBytes(v, 0);
    if |v| == 8 {
      FourBytes(v, 4);
    }
  }

  lemma PointersFit(v: seq<Byte>)
    requires |v| == 4 || |v| == 8
    ensures Decoded(v) <= MAX_U64
  {
    DecodedFits(v);
    assert PowerOf256(4) == 0x1_0000_0000;
    assert PowerOf256(8) == 0x1_0000_0000 * PowerOf256(4);
  }

  /** Adding a signed offset to an address, or the overflow error. */
  function AddSigned(base: U64, offset: int): (r: Option<U64>)
    ensures r.Some? <==> 0 <= base + offset <= MAX_U64
    ensures r.Some? ==> r.value == base + offset
  {
    if 0 <= offset then if base + offset <= MAX_U64 then Some(base + offset) else None
    else if -offset <= base then Some(base + offset) else None
  }

  /** The pointer stored at an address. */
  function PointerAt(m: Bytes, address: nat, width: nat): (pointer: U64)
    requires width == 4 || width == 8
  {
    PointersFit(Value(m, address, width));
    Decoded(Value(m, address, width))
  }

  // Following a chain

  datatype Resolution = Resolution(dereferenced: seq<U64>, final: U64)

  /** Follow a chain: read a pointer, add an offset, and so on; the first failure ends it. */
  function Follow(m: Bytes, current: U64, offsets: seq<int>, width: nat): (r: Result<Resolution, AnalysisError>)
    requires width == 4 || width == 8
    ensures r.Ok? ==> |r.value.dereferenced| == |offsets|
    decreases |offsets|
  {
    if offsets == [] then Ok(Resolution([], current))
    else if !Readable(m, current, width) then Err(ReadError)
    else
      var pointer := PointerAt(m, current, width);
      match AddSigned(pointer, offsets[0])
      case None => Err(AddressOverflow)
      case Some(next) =>
        match Follow(m, next, offsets[1..], width)
        case Err(e) => Err(e)
        case Ok(rest) => Ok(Resolution([pointer] + rest.dereferenced, rest.final))
  }

  /** The addresses that following a chain reads from: the root, and then each pointer with its offset added. */
  function Stops(root: int, dereferenced: seq<U64>, offsets: seq<int>): seq<int>
    requires |dereferenced| == |offsets|
  {
    seq(|offsets|, i requires 0 <= i < |offsets| => if i == 0 then root else dereferenced[i - 1] + offsets[i - 1])
  }

  /** What following a chain does: each pointer is the little-endian number of the readable bytes where the chain has
      come to, and each next address is that pointer and the offset. */
  ghost predicate Follows(m: Bytes, base: U64, offsets: seq<int>, width: nat, r: Resolution) {
    && |r.dereferenced| == |offsets|
    && (forall i :: 0 <= i < |offsets| ==> ReadsPointer(m, Stops(base, r.dereferenced, offsets)[i], width,
        r.dereferenced[i]))
    && r.final == if offsets == [] then base else r.dereferenced[|offsets| - 1] + offsets[|offsets| - 1]
  }

  ghost predicate ReadsPointer(m: Bytes, a: int, width: nat, pointer: U64) {
    0 <= a && Readable(m, a, width) && IsLittleEndian(Value(m, a, width), pointer)
  }

  lemma StopsStep(root: int, pointer: U64, rest: seq<U64>, offsets: seq<int>)
    requires |offsets| == |rest| + 1
    ensures Stops(root, [pointer] + rest, offsets) == [root] + Stops(pointer + offsets[0], rest, offsets[1..])
  {
  }

  lemma {:induction false} FollowFollows(m: Bytes, base: U64, offsets: seq<int>, width: nat)
    requires width == 4 || width == 8
    ensures var r := Follow(m, base, offsets, width); r.Ok? ==> Follows(m, base, offsets, width, r.value)
    decreases |offsets|
  {
    var r := Follow(m, base, offsets, width);
    if offsets != [] && r.Ok? {
      var pointer := PointerAt(m, base, width);
      var next := AddSigned(pointer, offsets[0]).value;
      FollowFollows(m, next, offsets[1..], width);
      PointersAreLittleEndian(Value(m, base, width));
      var rest := Follow(m, next, offsets[1..], width).value;
      OneMoreFollowed(m, base, offsets, width, pointer, rest, r.value);
    }
  }

  lemma OneMoreFollowed(m: Bytes, base: U64, offsets: seq<int>, width: nat, pointer: U64, rest: Resolution,
      r: Resolution)
    requires offsets != [] && ReadsPointer(m, base, width, pointer) && 0 <= pointer + offsets[0] <= MAX_U64
    requires Follows(m, pointer + offsets[0], offsets[1..], width, rest)
    requires r == Resolution([pointer] + rest.dereferenced, rest.final)
    ensures Follows(m, base, offsets, width, r)
  {
    StopsStep(base, pointer, rest.dereferenced, offsets);
    forall i | 0 <= i < |offsets|
      ensures ReadsPointer(m, Stops(base, r.dereferenced, offsets)[i], width, r.dereferenced[i])
    {
      if 0 < i {
        assert Stops(base, r.dereferenced, offsets)[i]
            == Stops(pointer + offsets[0], rest.dereferenced, offsets[1..])[i - 1];
        assert r.dereferenced[i] == rest.dereferenced[i - 1];
      }
    }
  }

  /** Where following ends early: an address from which no pointer can be read, or an offset that leads out of the
      address space. */
  ghost predicate FailsAt(m: Bytes, base: U64, offsets: seq<int>, width: nat, i: nat, e: AnalysisError)
    requires i < |offsets| && (width == 4 || width == 8)
  {
    && Follow(m, base, offsets[..i], width).Ok?
    && var a := Follow(m, base, offsets[..i], width).value.final;
       if e == ReadError then !Readable(m, a, width)
       else
         && e == AddressOverflow && Readable(m, a, width)
         && !(0 <= PointerAt(m, a, width) + offsets[i] <= MAX_U64)
  }

  /** An error is that of the first place where the chain cannot be followed. */
  lemma {:induction false} ErrorsAreWhereTheyOccur(m: Bytes, base: U64, offsets: seq<int>, width: nat)
    requires width == 4 || width == 8
    ensures var r := Follow(m, base, offsets, width);
            r.Err? ==> exists i :: 0 <= i < |offsets| && FailsAt(m, base, offsets, width, i, r.error)
    decreases |offsets|
  {
    var r := Follow(m, base, offsets, width);
    if r.Err? {
      var next := AddSigned(PointerAt(m, base, width), offsets[0]);
      if Readable(m, base, width) && next.Some? {
        ErrorsAreWhereTheyOccur(m, next.value, offsets[1..], width);
        var i :| 0 <= i < |offsets| - 1 && FailsAt(m, next.value, offsets[1..], width, i, r.error);
        assert offsets[..i + 1][1..] == offsets[1..][..i];
        assert FailsAt(m, base, offsets, width, i + 1, r.error);
      } else {
        assert Follow(m, base, offsets[..0], width) == Ok(Resolution([], base));
        assert FailsAt(m, base, offsets, width, 0, r.error);
      }
    }
  }

  function Prepend(front: seq<U64>, r: Result<Resolution, AnalysisError>): Result<Resolution, AnalysisError> {
    match r
    case Err(e) => Err(e)
    case Ok(rest) => Ok(Resolution(front + rest.dereferenced, rest.final))
  }

  /** Resolving a chain from a base address that is already known. */
  method ResolvePointerChain(m: Bytes, base: U64, offsets: seq<int>, pointerSize: nat)
    returns (r: Result<Resolution, AnalysisError>)
    ensures r == if pointerSize != 4 && pointerSize != 8
        then Err(InvalidPointerSize) else Follow(m, base, offsets, pointerSize)
    ensures r.Ok? ==> Follows(m, base, offsets, pointerSize, r.value)
    ensures r.Err? && r.error != InvalidPointerSize ==>
              && (pointerSize == 4 || pointerSize == 8)
              && exists i :: 0 <= i < |offsets| && FailsAt(m, base, offsets, pointerSize, i, r.error)
  {
    if pointerSize != 4 && pointerSize != 8 {
      return Err(InvalidPointerSize);
    }
    r := FollowOffsets(m, base, offsets, pointerSize);
    FollowFollows(m, base, offsets, pointerSize);
    ErrorsAreWhereTheyOccur(m, base, offsets, pointerSize);
  }

  /** The loop over the offsets. */
  method FollowOffsets(m: Bytes, base: U64, offsets: seq<int>, pointerSize: nat)
    returns (r: Result<Resolution, AnalysisError>)
    requires pointerSize == 4 || pointerSize == 8
    ensures r == Follow(m, base, offsets, pointerSize)
  {
    var current := base;
    var dereferenced: seq<U64> := [];
    assert offsets[0..] == offsets;
    PrependNothing(Follow(m, base, offsets, pointerSize));
    for i := 0 to |offsets|
      invariant Prepend(dereferenced, Follow(m, current, offsets[i..], pointerSize))
          == Follow(m, base, offsets, pointerSize)
    {
      assert offsets[i..][1..] == offsets[i + 1..];
      var bytes := ReadExact(m, current, pointerSize);
      if bytes.None? {
        return Err(ReadError);
      }
      assert bytes.value == Value(m, current, pointerSize);
      PointersFit(bytes.value);
      var pointer: U64 := Decoded(bytes.value);
      var next := AddSigned(pointer, offsets[i]);
      if next.None? {
        return Err(AddressOverflow);
      }
      Regroup(dereferenced, pointer, Follow(m, next.value, offsets[i + 1..], pointerSize));
      dereferenced := dereferenced + [pointer];
      current := next.value;
    }
    assert dereferenced + [] == dereferenced;
    return Ok(Resolution(dereferenced, current));
  }

  lemma PrependNothing(r: Result<Resolution, AnalysisError>)
    ensures Prepend([], r) == r
  {
    if r.Ok? {
      assert [] + r.value.dereferenced == r.value.dereferenced;
    }
  }

  lemma Regroup(front: seq<U64>, pointer: U64, r: Result<Resolution, AnalysisError>)
    ensures Prepend(front, Prepend([pointer], r)) == Prepend(front + [pointer], r)
  {
    if r.Ok? {
      assert front + ([pointer] + r.value.dereferenced) == front + [pointer] + r.value.dereferenced;
    }
  }

  // Links: one step of a chain, seen from the address it leads to

  datatype Problem = Problem(
    memory: Bytes, regions: seq<MemoryRegion>, filter: RegionFilter, chunkSizeBytes: U64, limit: nat,
    target: U64, maxDepth: nat, maxOffset: U64, pointerSize: nat, alignment: nat, maxResults: nat)

  predicate ValidPointerSize(p: Problem) {
    p.pointerSize == 4 || p.pointerSize == 8
  }

  predicate InvalidLimits(p: Problem) {
    || p.maxDepth == 0 || 8 < p.maxDepth || p.maxOffset == 0 || p.alignment == 0
    || p.maxResults == 0 || p.limit < p.maxResults
  }

  predicate Searchable(p: Problem) {
    ValidPointerSize(p) && !InvalidLimits(p)
  }

  /** A stored pointer leads to `b` if it is at most the largest offset below it. */
  predicate LeadsTo(pointer: nat, b: U64, maxOffset: U64) {
    pointer <= b && b - pointer <= maxOffset && b - pointer <= MAX_I64
  }

  function QueryAt(p: Problem, b: U64): (q: Query)
    requires Searchable(p)
    ensures WellFormed(q)
  {
    Query(p.memory, p.filter, if p.chunkSizeBytes < p.pointerSize then p.pointerSize else p.chunkSizeBytes,
          p.pointerSize, p.alignment, v => LeadsTo(Decoded(v), b, p.maxOffset))
  }

  /** The addresses found to hold a pointer that leads to `b`. */
  ghost function Predecessors(p: Problem, b: U64): seq<nat>
    requires Searchable(p)
  {
    ReachedMatches(QueryAt(p, b), BeforeOverflow(QueryAt(p, b), p.regions))
  }

  function Offset(p: Problem, a: nat, b: U64): int
    requires ValidPointerSize(p)
  {
    b - PointerAt(p.memory, a, p.pointerSize)
  }

  /** A predecessor can be read, and adding its offset to what it holds gives `b`. */
  lemma PredecessorsLead(p: Problem, a: nat, b: U64)
    requires Searchable(p) && a in Predecessors(p, b)
    ensures a <= MAX_U64 && Readable(p.memory, a, p.pointerSize)
    ensures 0 <= Offset(p, a, b) <= p.maxOffset && Offset(p, a, b) <= MAX_I64
    ensures AddSigned(PointerAt(p.memory, a, p.pointerSize), Offset(p, a, b)) == Some(b)
  {
    var q := QueryAt(p, b);
    var regions := BeforeOverflow(q, p.regions);
    FoundExactly(q, regions, a);
    var i :| 0 <= i < |regions| && Eligible(q, regions[i]) && Reached(q, regions[i], a);
    NoneOverflows(q, p.regions, i);
    ReachedIsReadable(q, regions[i], a);
    assert q.accept(Value(p.memory, a, p.pointerSize));
  }

  lemma {:induction false} NoneOverflows(q: Query, regions: seq<MemoryRegion>, i: nat)
    requires i < |BeforeOverflow(q, regions)| && Eligible(q, BeforeOverflow(q, regions)[i])
    ensures End(BeforeOverflow(q, regions)[i]).Some?
  {
    if i < |regions| - 1 {
      GoodWithoutLast(q, regions, i);
      NoneOverflows(q, regions[..|regions| - 1], i);
    }
  }

  lemma GoodWithoutLast(q: Query, regions: seq<MemoryRegion>, i: nat)
    requires i < |BeforeOverflow(q, regions)| && i < |regions| - 1
    ensures i < |BeforeOverflow(q, regions[..|regions| - 1])|
    ensures BeforeOverflow(q, regions[..|regions| - 1])[i] == BeforeOverflow(q, regions)[i]
  {
  }

  /** Some region that is looked into runs past the end of the address space. */
  ghost predicate Overflows(p: Problem)
    requires Searchable(p)
  {
    BeforeOverflow(QueryAt(p, p.target), p.regions) != p.regions
  }

  lemma {:induction false} OverflowIsEverywhere(p: Problem, b: U64, c: U64, regions: seq<MemoryRegion>)
    requires Searchable(p)
    ensures BeforeOverflow(QueryAt(p, b), regions) == BeforeOverflow(QueryAt(p, c), regions)
  {
    if regions != [] {
      OverflowIsEverywhere(p, b, c, regions[..|regions| - 1]);
    }
  }

  /** The first predecessors of an address; or nothing, if a region that runs past the end of the address space
      comes before there are enough. */
  method ScanPointerPredecessors(p: Problem, b: U64, maxResults: nat) returns (r: Option<seq<(U64, int)>>)
    requires Searchable(p) && 0 < maxResults
    ensures r.None? <==> Overflows(p) && |Predecessors(p, b)| < maxResults
    ensures r.Some? ==>
              var found := Take(Predecessors(p, b), maxResults);
              |r.value| == |found| && forall i :: 0 <= i < |found| ==> r.value[i] == (found[i], Offset(p, found[i], b))
  {
    OverflowIsEverywhere(p, b, p.target, p.regions);
    var found := ScanRegions(QueryAt(p, b), p.regions, maxResults);
    if found.None? {
      return None;
    }
    var results: seq<(U64, int)> := [];
    for i := 0 to |found.value.addresses|
      invariant |results| == i
      invariant forall k :: 0 <= k < i ==>
                  results[k] == (found.value.addresses[k], Offset(p, found.value.addresses[k], b))
    {
      var a := found.value.addresses[i];
      assert a in Predecessors(p, b);
      PredecessorsLead(p, a, b);
      results := results + [(a, Offset(p, a, b))];
    }
    return Some(results);
  }
}
