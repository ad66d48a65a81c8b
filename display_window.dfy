/** The integer centring arithmetic of the terminal display: where a run
    of characters starts so that it sits in the middle of a line (or a
    column) of `total` cells. All quantities are C++ `unsigned` (32 bits). */
module DisplayWindow {
  const UintModulus: nat := 0x1_0000_0000
  const UlongModulus: nat := 0x1_0000_0000_0000_0000

  /** `unsigned`. */
  type Uint = n: nat | n < UintModulus

  /** `display::centering`: the first cell and the number of cells. */
  datatype Centering = Centering(begin: Uint, characters: Uint)

  /** `characters::compute_center`: exactly `value` cells, starting at
      `(total - value) / 2`; the subtraction wraps modulo 2^32 when the text
      is wider than the line. */
  function CharactersCenter(value: Uint, total: Uint): (c: Centering)
    ensures c.characters == value
    ensures value <= total ==> c.begin == (total - value) / 2
    ensures value <= total ==> 2 * c.begin + value <= total && c.begin <= total / 2
    ensures value > total ==> 2 * c.begin == UintModulus - (value - total) - (UintModulus - (value - total)) % 2
    ensures value > total ==> 2 * c.begin + value > total
  {
    var difference: Uint := (total - value) % UintModulus;
    Centering(difference / 2, value)
  }

  /** `percent::compute_center`: the percentage is clamped to 100, the
      product with `total` is formed in `unsigned long long` (where it
      cannot overflow), and the remaining cells are split evenly. */
  function PercentCenter(value: Uint, total: Uint): (c: Centering)
    ensures c.characters <= total
    ensures 100 * c.characters <= Clamp(value) * total < 100 * (c.characters + 1)
    ensures c.begin == (total - c.characters) / 2 && 2 * c.begin + c.characters <= total
    ensures value >= 100 ==> c.characters == total && c.begin == 0
  {
    var clamped := Clamp(value);
    var wide := clamped * total;
    WideProduct(clamped, total);
    var characters: Uint := Hundredths(wide, total);
    var offset: Uint := ((total - characters) % UintModulus) / 2;
    Centering(offset, characters)
  }

  /** `wide / 100u`, which cannot exceed `total` when `wide` does not
      exceed a hundred times it. */
  function Hundredths(wide: nat, total: nat): (q: nat)
    requires wide <= 100 * total
    ensures q <= total && 100 * q <= wide < 100 * (q + 1)
    ensures wide == 100 * total ==> q == total
  {
    var q := wide / 100;
    assert wide == 100 * q + wide % 100;
    q
  }

  /** `std::min(100u, value)`. */
  function Clamp(value: Uint): (clamped: Uint)
    ensures clamped <= 100 && clamped <= value
    ensures clamped == value || (clamped == 100 && value > 100)
  {
    if value < 100 then value else 100
  }

  /** A larger percentage never yields fewer cells. */
  lemma PercentCenterMonotone(low: Uint, high: Uint, total: Uint)
    requires low <= high
    ensures PercentCenter(low, total).characters <= PercentCenter(high, total).characters
  {
    var a := Clamp(low) * total;
    var b := Clamp(high) * total;
    assert a <= b by {
      assert Clamp(low) <= Clamp(high);
      MultiplyMonotone(Clamp(low), Clamp(high), total);
    }
  }

  /** The `unsigned long long` product of a clamped percentage and a line
      width is at most a hundred widths, well below 2^64. */
  lemma WideProduct(clamped: nat, total: Uint)
    requires clamped <= 100
    ensures clamped * total <= 100 * total < UlongModulus
  {
    MultiplyMonotone(clamped, 100, total);
  }

  lemma MultiplyMonotone(x: nat, y: nat, z: nat)
    requires x <= y
    ensures x * z <= y * z
  {
    assert y * z == x * z + (y - x) * z;
  }
}
