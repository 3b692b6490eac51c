/**
 * The per-cell arithmetic of `bpi` and `stdbpi` in BPI_functions.py. The
 * focal mean over the annulus, the global mean and the standard deviation
 * come from the raster engine and are inputs here.
 */
module Bpi {

  /** The engine's `Int` tool: truncation toward zero. */
  function Int(x: real): (r: int)
    ensures 0.0 <= x ==> r as real <= x < r as real + 1.0
    ensures x < 0.0 ==> r as real - 1.0 < x <= r as real
  {
    if x >= 0.0 then x.Floor else -((-x).Floor)
  }

  /** The source's rounding idiom `Int(x + 0.5)`: round half up for
      x >= -0.5, and one step higher below that unless x + 0.5 is whole. */
  function RoundAsWritten(x: real): (r: int)
    ensures -0.5 <= x ==> x - 0.5 < r as real <= x + 0.5
    ensures x < -0.5 ==> x + 0.5 <= r as real < x + 1.5
  {
    Int(x + 0.5)
  }

  /** Rounding to the nearest integer, halves upward: the rounding the idiom is meant to give. */
  function RoundHalfUp(x: real): (r: int)
    ensures x - 0.5 < r as real <= x + 0.5
  {
    (x + 0.5).Floor
  }

  /** The idiom agrees with round-half-up wherever x >= -0.5. */
  lemma AsWrittenAgreesAboveMinusHalf(x: real)
    requires -0.5 <= x
    ensures RoundAsWritten(x) == RoundHalfUp(x)
  {
  }

  /** Below -0.5 the idiom is one too high whenever x + 0.5 is not whole. */
  lemma AsWrittenBiasedBelowMinusHalf(x: real)
    requires x < -0.5
    requires (x + 0.5).Floor as real != x + 0.5
    ensures RoundAsWritten(x) == RoundHalfUp(x) + 1
  {
  }

  /** Concrete inputs: a difference of -2 becomes -1, and -1.2 becomes 0. */
  lemma AsWrittenCounterexample()
    ensures RoundAsWritten(-2.0) == -1 && RoundHalfUp(-2.0) == -2
    ensures RoundAsWritten(-1.2) == 0 && RoundHalfUp(-1.2) == -1
  {
  }

  /** Truncation never reverses the order of two values. */
  lemma IntMonotone(x: real, y: real)
    requires x <= y
    ensures Int(x) <= Int(y)
  {
  }

  /** The idiom never reverses the order of two values. */
  lemma RoundAsWrittenMonotone(x: real, y: real)
    requires x <= y
    ensures RoundAsWritten(x) <= RoundAsWritten(y)
  {
  }

  /** Raw BPI raster from the bathymetry and its annulus focal mean: `Int((bathy - focalMean) + 0.5)` per cell. */
  function RawBpi(bathy: seq<real>, focalMean: seq<real>): (r: seq<int>)
    requires |bathy| == |focalMean|
    ensures |r| == |bathy|
    ensures forall i :: 0 <= i < |r| && -0.5 <= bathy[i] - focalMean[i] ==>
      bathy[i] - focalMean[i] - 0.5 < r[i] as real <= bathy[i] - focalMean[i] + 0.5
    ensures forall i :: 0 <= i < |r| && bathy[i] - focalMean[i] < -0.5 ==>
      bathy[i] - focalMean[i] + 0.5 <= r[i] as real < bathy[i] - focalMean[i] + 1.5
  {
    seq(|bathy|, i requires 0 <= i < |bathy| => RoundAsWritten(bathy[i] - focalMean[i]))
  }

  /** The score of a BPI value: its distance from the mean in hundredths of a standard deviation. */
  function Score(b: int, mean: real, std: real): real
    requires std != 0.0
  {
    (b as real - mean) / std * 100.0
  }

  /** Standardized BPI raster, `Int(((bpi - mean) / std) * 100 + 0.5)` per cell; the source divides by the deviation unchecked. */
  function StdBpi(bpi: seq<int>, mean: real, std: real): (r: seq<int>)
    requires std != 0.0
    ensures |r| == |bpi|
    ensures forall i :: 0 <= i < |r| && -0.5 <= Score(bpi[i], mean, std) ==>
      Score(bpi[i], mean, std) - 0.5 < r[i] as real <= Score(bpi[i], mean, std) + 0.5
    ensures forall i :: 0 <= i < |r| && Score(bpi[i], mean, std) < -0.5 ==>
      Score(bpi[i], mean, std) + 0.5 <= r[i] as real < Score(bpi[i], mean, std) + 1.5
  {
    seq(|bpi|, i requires 0 <= i < |bpi| => RoundAsWritten(Score(bpi[i], mean, std)))
  }

  /** With a positive deviation, standardizing keeps the order of the cells. */
  lemma StdBpiMonotone(bpi: seq<int>, mean: real, std: real, i: nat, k: nat)
    requires 0.0 < std
    requires i < |bpi| && k < |bpi| && bpi[i] <= bpi[k]
    ensures StdBpi(bpi, mean, std)[i] <= StdBpi(bpi, mean, std)[k]
  {
    assert (bpi[i] as real - mean) / std <= (bpi[k] as real - mean) / std;
    RoundAsWrittenMonotone(Score(bpi[i], mean, std), Score(bpi[k], mean, std));
  }
}
