/** The 16-bit code unit of a given numeric value, assembled bit by bit. */
module CodeUnits {

  /** The code unit whose value is `x`, built from the most significant bit down. */
  function ToCodeUnit(x: int): (u: bv16)
    requires 0 <= x < 0x1_0000
    ensures u as int == x
    decreases x
  {
    if x == 0 then 0
    else
      var high := ToCodeUnit(x / 2);
      if x % 2 == 0 then
        ShiftInZero(high);
        high << 1
      else
        ShiftInOne(high);
        (high << 1) | 1
  }

  /** Shifting in a 0 bit doubles a value below 2^15. */
  lemma ShiftInZero(b: bv16)
    requires b < 0x8000
    ensures (b << 1) as int == b as int * 2
  {
  }

  /** Shifting in a 1 bit doubles a value below 2^15 and adds one. */
  lemma ShiftInOne(b: bv16)
    requires b < 0x8000
    ensures ((b << 1) | 1) as int == b as int * 2 + 1
  {
  }
}
