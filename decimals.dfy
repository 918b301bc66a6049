/** Weight helpers: LiftLog's fixed-point DecimalValue (whole units plus billionths). */
module Decimals {

  const NanoFactor: int := 1_000_000_000

  /** `units` is an int64 and `nanos` an sfixed32 in the message; here both are unbounded. */
  datatype DecimalValue = DecimalValue(units: int, nanos: int)

  /** The number a DecimalValue denotes: `units + nanos / 10^9`. */
  function ToReal(d: DecimalValue): real
  {
    d.units as real + d.nanos as real / NanoFactor as real
  }

  /** The normal form: the fractional part lies in [0, 10^9) billionths. */
  predicate IsNormal(d: DecimalValue)
  {
    0 <= d.nanos < NanoFactor
  }

  /** Python's `round(x)` on a float: the nearest integer, ties to the even neighbour. */
  function RoundHalfEven(x: real): (r: int)
    ensures -1.0 / 2.0 <= r as real - x <= 1.0 / 2.0
    ensures (r as real - x == 1.0 / 2.0 || x - r as real == 1.0 / 2.0) ==> r % 2 == 0
  {
    var f := x.Floor;
    var d := x - f as real;
    if d < 1.0 / 2.0 then f
    else if d > 1.0 / 2.0 then f + 1
    else if f % 2 == 0 then f
    else f + 1
  }

  /**
   * `make_decimal_value`: split `value` into its floor and the fractional part
   * scaled to billionths and rounded; a fraction that rounds up to a whole
   * billion carries into `units`.
   */
  function MakeDecimalValue(value: real): (d: DecimalValue)
    ensures IsNormal(d)
    ensures -1.0 / 2.0 <= (ToReal(d) - value) * NanoFactor as real <= 1.0 / 2.0
    ensures d.units == value.Floor || (d.units == value.Floor + 1 && d.nanos == 0)
  {
    var units := value.Floor;
    var nanos := RoundHalfEven((value - units as real) * NanoFactor as real);
    if nanos >= NanoFactor then DecimalValue(units + 1, 0)
    else DecimalValue(units, nanos)
  }

  /** A whole number of kilograms has no fractional part. */
  lemma MakeDecimalIntegral(n: int)
    ensures MakeDecimalValue(n as real) == DecimalValue(n, 0)
  {
    assert (n as real).Floor == n;
  }

  /** The example of the source's documentation: 72.5 is 72 units and 500000000 nanos. */
  lemma MakeDecimalExample()
    ensures MakeDecimalValue(72.5) == DecimalValue(72, 500_000_000)
    ensures MakeDecimalValue(2.5) == DecimalValue(2, 500_000_000)
  {
    assert (72.5).Floor == 72;
    assert (2.5).Floor == 2;
  }

  /** Encoding the value a normal DecimalValue denotes gives that DecimalValue back. */
  lemma MakeDecimalOfToReal(d: DecimalValue)
    requires IsNormal(d)
    ensures MakeDecimalValue(ToReal(d)) == d
  {
    var v := ToReal(d);
    var frac := d.nanos as real / NanoFactor as real;
    assert 0.0 <= frac < 1.0;
    assert v.Floor == d.units;
    assert (v - d.units as real) * NanoFactor as real == d.nanos as real;
    assert (d.nanos as real).Floor == d.nanos;
  }

  /**
   * A value with at most nine fractional digits (a whole number of billionths)
   * is reproduced exactly by decoding its encoding.
   */
  lemma DecimalRoundTrip(billionths: int)
    ensures ToReal(MakeDecimalValue(billionths as real / NanoFactor as real)) == billionths as real / NanoFactor as real
  {
    var d := DecimalValue(billionths / NanoFactor, billionths % NanoFactor);
    assert billionths == d.units * NanoFactor + d.nanos;
    assert ToReal(d) == billionths as real / NanoFactor as real;
    MakeDecimalOfToReal(d);
  }
}
