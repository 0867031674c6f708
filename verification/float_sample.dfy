/** A sensor value as the firmware holds it in a `float`: either the not-a-number
    sentinel a driver returns on a failed read, or a number. Numbers are modelled
    over `real`, so boundary comparisons are exact (no IEEE-754 rounding). */
module FloatSample {

  datatype Sample = NaN | Num(value: real)

  predicate IsNaN(x: Sample) {
    x.NaN?
  }

  /** `x > bound` on a float: every ordered comparison with NaN is false. */
  predicate Exceeds(x: Sample, bound: real) {
    x.Num? && x.value > bound
  }

  /** `x < bound` on a float: every ordered comparison with NaN is false. */
  predicate Below(x: Sample, bound: real) {
    x.Num? && x.value < bound
  }

}
