/**
 * Readings and the arithmetic applied to them. Watt values are exact
 * decimals held as integer thousandths of a watt (`Milli`); Python's binary
 * floats are not modelled.
 */
module Power {

  /** A power value in thousandths of a watt: 1500 is 1.5 W. */
  type Milli = int

  const MILLI_PER_WATT: nat := 1000

  /**
   * What one call of a backend's `get_powermeter_watts()` produced: the
   * per-phase readings, or an exception.
   */
  datatype Fetched = Watts(values: seq<int>) | Failed

  function Abs(x: int): nat { if x < 0 then -x else x }

  /** Python's `sum(values)`. */
  function Sum(s: seq<int>): int
    decreases |s|
  {
    if s == [] then 0 else s[0] + Sum(s[1..])
  }

  /**
   * Round `x` to a multiple of `unit`, ties to the even multiple, as
   * Python's `round` does; the result `k` stands for `k * unit`.
   */
  function RoundedUnits(x: int, unit: nat): (k: int)
    requires unit > 0
    ensures 2 * Abs(k * unit - x) <= unit
    ensures 2 * Abs(k * unit - x) == unit ==> k % 2 == 0
  {
    var q := x / unit;
    var rem := x % unit;
    if 2 * rem < unit then q
    else if 2 * rem > unit then q + 1
    else if q % 2 == 0 then q else q + 1
  }

  /** Python's `round(v)` of a value given in thousandths: whole watts. */
  function RoundToWatts(m: Milli): int
  {
    RoundedUnits(m, MILLI_PER_WATT)
  }

  lemma ScaledDifference(d: int, unit: nat)
    requires unit > 0
    ensures d >= 2 ==> d * unit >= 2 * unit
    ensures d <= -2 ==> d * unit <= -2 * unit
    ensures d == 1 ==> d * unit == unit
    ensures d == -1 ==> d * unit == -(unit as int)
  {
  }

  /** The rounding is the unique nearest multiple, ties to even. */
  lemma RoundedUnitsUnique(x: int, unit: nat, k: int)
    requires unit > 0
    requires 2 * Abs(k * unit - x) <= unit
    requires 2 * Abs(k * unit - x) == unit ==> k % 2 == 0
    ensures k == RoundedUnits(x, unit)
  {
    var r := RoundedUnits(x, unit);
    var ku, ru := k * unit, r * unit;
    assert (k - r) * unit == ku - ru;
    ScaledDifference(k - r, unit);
  }
}
