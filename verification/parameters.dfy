/**
 * Normalisation and validation of the per-item `min`/`max` parameters of the
 * Random node (nodes/Random/Random.node.ts, lines 85-131): reject a value
 * that is not a finite number, floor both values, swap them when inverted,
 * and only then check them against the bounds random.org accepts.
 *
 * Parameters are JavaScript numbers. A finite one is modelled as an exact
 * `real`, so `Math.floor` is `.Floor`; the three non-finite numbers are
 * separate constructors.
 */
module Parameters {
  import opened Wrappers
  import opened NodeErrors

  /** The smallest and largest bound random.org accepts for `min` and `max`. */
  const LowestBound: int := -1_000_000_000
  const HighestBound: int := 1_000_000_000

  /** A JavaScript number as the host hands it over. */
  datatype ParamValue = Finite(value: real) | NaN | Infinity | NegInfinity

  /** The normalised, validated range sent to random.org. */
  datatype Range = Range(lo: int, hi: int)

  /** `Number.isFinite` */
  predicate IsFinite(x: ParamValue) {
    x.Finite?
  }

  function Min(a: int, b: int): int { if a <= b then a else b }
  function Max(a: int, b: int): int { if a <= b then b else a }

  /**
   * The normalise-and-validate step of one item: the ordered integer pair to
   * request, or the error that aborts the item.
   */
  function Normalize(min: ParamValue, max: ParamValue): (r: Result<Range, ErrorKind>)
    // only the two parameter errors can come out of this step
    ensures r.Failure? ==> r.error == NonFiniteParameter || r.error == OutOfRange
    // the non-finite check comes first and fires exactly on a non-finite value
    ensures r == Failure(NonFiniteParameter) <==> !(IsFinite(min) && IsFinite(max))
    // a normalised range is ordered and within random.org's bounds
    ensures r.Success? ==>
      r.value.lo <= r.value.hi && LowestBound <= r.value.lo && r.value.hi <= HighestBound
  {
    if !IsFinite(min) || !IsFinite(max) then
      Failure(NonFiniteParameter)
    else
      var lo0 := min.value.Floor;
      var hi0 := max.value.Floor;
      var (lo, hi) := if lo0 > hi0 then (hi0, lo0) else (lo0, hi0);
      if lo < LowestBound || hi > HighestBound then
        Failure(OutOfRange)
      else
        Success(Range(lo, hi))
  }

  /**
   * Normalisation floors and never rounds up: the normalised `lo` is the
   * greatest integer not above the smaller input, and `hi` the greatest
   * integer not above the larger one.
   */
  lemma NormalizeFloors(a: real, b: real)
    requires Normalize(Finite(a), Finite(b)).Success?
    ensures var rg := Normalize(Finite(a), Finite(b)).value;
      rg.lo as real <= a && rg.lo as real <= b &&
      (a < (rg.lo + 1) as real || b < (rg.lo + 1) as real) &&
      (rg.hi as real <= a || rg.hi as real <= b) &&
      a < (rg.hi + 1) as real && b < (rg.hi + 1) as real
  {
  }

  /**
   * The range check runs after flooring and swapping: a pair of finite
   * values is refused as out of range exactly when the smaller floored value
   * is below -1e9 or the larger one above 1e9; otherwise it is accepted with
   * the floored values in order.
   */
  lemma NormalizeFinite(a: real, b: real)
    ensures var lo, hi := Min(a.Floor, b.Floor), Max(a.Floor, b.Floor);
      Normalize(Finite(a), Finite(b)) ==
        if lo < LowestBound || hi > HighestBound then Failure(OutOfRange)
        else Success(Range(lo, hi))
  {
  }

  /** Normalisation does not care which parameter holds which end of the range. */
  lemma NormalizeSymmetric(x: ParamValue, y: ParamValue)
    ensures Normalize(x, y) == Normalize(y, x)
  {
  }

  /**
   * For integer parameters within the bounds, the normalised pair is
   * (min(a, b), max(a, b)).
   */
  lemma NormalizeIntegers(a: int, b: int)
    requires LowestBound <= a <= HighestBound && LowestBound <= b <= HighestBound
    ensures Normalize(Finite(a as real), Finite(b as real)) == Success(Range(Min(a, b), Max(a, b)))
  {
  }

  /** The concrete cases the node's test suite exercises. */
  lemma NormalizeExamples()
    // decimals are floored: 1.7 and 10.9 give 1 and 10
    ensures Normalize(Finite(1.7), Finite(10.9)) == Success(Range(1, 10))
    // flooring goes towards negative infinity: -0.5 gives -1
    ensures Normalize(Finite(-0.5), Finite(3.0)) == Success(Range(-1, 3))
    // an inverted pair is swapped
    ensures Normalize(Finite(100.0), Finite(50.0)) == Success(Range(50, 100))
    // both bounds themselves are accepted
    ensures Normalize(Finite(-1_000_000_000.0), Finite(1_000_000_000.0))
         == Success(Range(LowestBound, HighestBound))
    // -2e9 is refused, before or after the swap
    ensures Normalize(Finite(-2_000_000_000.0), Finite(100.0)) == Failure(OutOfRange)
    ensures Normalize(Finite(100.0), Finite(-2_000_000_000.0)) == Failure(OutOfRange)
    // NaN is refused whatever the other parameter is
    ensures Normalize(NaN, Finite(100.0)) == Failure(NonFiniteParameter)
  {
  }
}
