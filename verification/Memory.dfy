/** Memory regions, and memory as the bytes that can be read. */
module Memory {
  import opened Numbers

  datatype MemoryRegion = MemoryRegion(
    base: U64, size: U64, committed: bool, readable: bool, writable: bool, executable: bool, guard: bool)

  datatype RegionFilter = RegionFilter(
    requireReadable: bool, requireWritable: bool, requireExecutable: bool, includeGuardPages: bool)

  predicate Scannable(r: MemoryRegion, f: RegionFilter) {
    && r.committed
    && (!f.requireReadable || r.readable)
    && (!f.requireWritable || r.writable)
    && (!f.requireExecutable || r.executable)
    && (f.includeGuardPages || !r.guard)
  }

  /** With nothing required, a region is scanned if it is committed; each requirement, and leaving guard pages out,
      shuts out exactly the regions it is about, whatever the rest of the filter says. */
  lemma RequirementsAreIndependent(r: MemoryRegion, f: RegionFilter)
    ensures Scannable(r, RegionFilter(false, false, false, true)) <==> r.committed
    ensures Scannable(r, f.(requireReadable := true)) <==> Scannable(r, f.(requireReadable := false)) && r.readable
    ensures Scannable(r, f.(requireWritable := true)) <==> Scannable(r, f.(requireWritable := false)) && r.writable
    ensures Scannable(r, f.(requireExecutable := true))
            <==> Scannable(r, f.(requireExecutable := false)) && r.executable
    ensures Scannable(r, f.(includeGuardPages := false)) <==> Scannable(r, f.(includeGuardPages := true)) && !r.guard
  {
  }

  /** The address just past a region; `None` is the overflow error. */
  function End(r: MemoryRegion): (e: Option<U64>)
    ensures e.Some? ==> e.value == r.base + r.size
  {
    if r.base + r.size <= MAX_U64 then Some(r.base + r.size) else None
  }

  /** No region reaches into a later one. */
  ghost predicate Disjoint(regions: seq<MemoryRegion>) {
    forall i, j :: 0 <= i < j < |regions| ==> regions[i].base + regions[i].size <= regions[j].base
  }

  type Byte = x: nat | x < 256

  /** The bytes of a process that can be read at all. */
  type Bytes = map<nat, Byte>

  predicate Readable(m: Bytes, address: nat, length: nat) {
    forall k :: address <= k < address + length ==> k in m
  }

  /** No buffer is longer than the largest signed address; a longer one cannot be allocated. */
  const MAX_BUFFER := 0x7FFF_FFFF_FFFF_FFFF

  /** The bytes at an address, where they can be read. */
  function Value(m: Bytes, address: nat, width: nat): (v: seq<Byte>)
    ensures |v| == width
  {
    seq(width, k requires 0 <= k => if address + k in m then m[address + k] else 0)
  }

  /** An exact read: every byte asked for, or an error if one of them is missing. */
  method ReadExact(m: Bytes, address: nat, length: nat) returns (r: Option<seq<Byte>>)
    ensures r.Some? <==> Readable(m, address, length)
    ensures r.Some? ==> |r.value| == length && forall k :: 0 <= k < length ==> r.value[k] == m[address + k]
  {
    var buffer: seq<Byte> := [];
    for i := 0 to length
      invariant |buffer| == i && Readable(m, address, i)
      invariant forall k :: 0 <= k < i ==> buffer[k] == m[address + k]
    {
      if address + i !in m {
        return None;
      }
      buffer := buffer + [m[address + i]];
    }
    return Some(buffer);
  }

  // Ascending addresses

  ghost predicate Ascending(p: seq<nat>) {
    forall i, j :: 0 <= i < j < |p| ==> p[i] < p[j]
  }

  ghost predicate AllBelow(p: seq<nat>, bound: nat) {
    forall i :: 0 <= i < |p| ==> p[i] < bound
  }

  lemma AscendingAppend(p: seq<nat>, q: seq<nat>, middle: nat)
    requires Ascending(p) && AllBelow(p, middle) && Ascending(q) && forall i :: 0 <= i < |q| ==> middle <= q[i]
    ensures Ascending(p + q)
  {
  }

  // Aligned positions

  /** `from`, `from + step`, ... below `limit`. */
  function Grid(from: nat, limit: nat, step: nat): (g: seq<nat>)
    requires 0 < step
    decreases if from < limit then limit - from else 0
  {
    if limit <= from then [] else [from] + Grid(from + step, limit, step)
  }

  lemma {:induction false} GridMembers(from: nat, limit: nat, step: nat, p: nat)
    requires 0 < step
    ensures p in Grid(from, limit, step) <==> from <= p < limit && (p - from) % step == 0
    decreases if from < limit then limit - from else 0
  {
    if from < limit {
      GridMembers(from + step, limit, step, p);
      if from + step <= p {
        StepDown(p - from, step);
      } else if from <= p {
        assert (p - from) % step == p - from;
      }
    }
  }

  lemma StepDown(d: nat, step: nat)
    requires 0 < step <= d
    ensures (d - step) % step == d % step
  {
    var q := d / step;
    assert d == q * step + d % step;
    assert d - step == (q - 1) * step + d % step;
    Remainder(d - step, q - 1, d % step, step);
  }

  lemma AtLeastOneStep(d: nat, step: nat)
    requires 0 < step && 0 < d && d % step == 0
    ensures step <= d
  {
  }

  lemma StepsAreOrdered(p: int, q: int, step: nat)
    requires p <= q
    ensures p * step <= q * step
  {
  }

  lemma Remainder(d: int, q: int, r: nat, step: nat)
    requires 0 < step && r < step && d == q * step + r
    ensures d % step == r && d / step == q
  {
    var e := d / step - q;
    assert e * step == r - d % step;
    assert 1 <= e ==> step <= e * step;
    assert e <= -1 ==> e * step <= 0 - step;
  }

  lemma {:induction false} GridAscends(from: nat, limit: nat, step: nat)
    requires 0 < step
    ensures forall i, j :: 0 <= i < j < |Grid(from, limit, step)| ==>
        Grid(from, limit, step)[i] < Grid(from, limit, step)[j]
    ensures forall i :: 0 <= i < |Grid(from, limit, step)| ==> from <= Grid(from, limit, step)[i] < limit
    decreases if from < limit then limit - from else 0
  {
    if from < limit {
      GridAscends(from + step, limit, step);
    }
  }

  /** A grid cut at one of its own points is two grids. */
  lemma {:induction false} GridSplits(from: nat, mid: nat, limit: nat, step: nat)
    requires 0 < step && from <= mid && (mid - from) % step == 0
    ensures Grid(from, if mid < limit then mid else limit, step) + Grid(mid, limit, step) == Grid(from, limit, step)
    decreases mid - from
  {
    if from < mid {
      AtLeastOneStep(mid - from, step);
      StepDown(mid - from, step);
      GridSplits(from + step, mid, limit, step);
    } else {
      assert Grid(from, from, step) == [];
    }
  }
}
