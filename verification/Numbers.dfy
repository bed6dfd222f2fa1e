/** Machine integers, the saturating operations the sources use, and the scaling law of the virtual clock. */
module Numbers {

  const MAX_U64: nat := 0xFFFF_FFFF_FFFF_FFFF
  const TWO_TO_32: nat := 0x1_0000_0000

  type U64 = x: nat | x <= MAX_U64
  type U32 = x: nat | x < TWO_TO_32

  datatype Option<+T> = None | Some(value: T)

  datatype Result<+T, +E> = Ok(value: T) | Err(error: E)

  function Max(a: U64, b: U64): U64 {
    if a < b then b else a
  }

  function SatAdd(a: U64, b: nat): U64 {
    if a + b <= MAX_U64 then a + b else MAX_U64
  }

  function SatSub(a: U64, b: U64): U64 {
    if b <= a then a - b else 0
  }

  /** A multiplier as it arrives from outside: every NaN and infinity is `NonFinite`. */
  datatype F64 = Finite(value: real) | NonFinite

  /** Real ticks scaled by a rate: the one piece of floating-point arithmetic the clock performs. */
  type Scaling = (nat, real) -> nat

  /** What the clock laws need of the scaling. Rounding to f64 is monotone, maps zero to zero and the
      conversion back saturates, so the code's own arithmetic has these properties too. */
  ghost predicate Lawful(scale: Scaling) {
    && (forall m: real :: 0.0 < m ==> scale(0, m) == 0)
    && (forall e: nat, m: real :: scale(e, m) <= MAX_U64)
    && (forall a: nat, b: nat, m: real :: a <= b && 0.0 < m ==> scale(a, m) <= scale(b, m))
  }

  /** The scaling in real arithmetic: floor, then saturate at both ends of u64. */
  function FloorScale(elapsed: nat, rate: real): nat {
    var product := (elapsed as real * rate).Floor;
    if product < 0 then 0 else if MAX_U64 < product then MAX_U64 else product
  }

  lemma FloorScaleIsLawful()
    ensures Lawful(FloorScale)
  {
  }
}
