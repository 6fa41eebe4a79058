/** Go's `int64` and the overflow-checked arithmetic of the storage policy. Every operation on the
    newtype is proved to stay in range, so a member that verifies over `int64` never wraps. */
module Int64 {
  const MAX: int := 0x7fff_ffff_ffff_ffff
  const MIN: int := -0x8000_0000_0000_0000
  const GIB: int := 0x4000_0000

  newtype int64 = x: int | -0x8000_0000_0000_0000 <= x <= 0x7fff_ffff_ffff_ffff

  ghost predicate InRange(x: int) { MIN <= x <= MAX }

  /** The `(value, ok)` pair of the checked operations. */
  datatype Checked = Fits(value: int64) | Overflow

  function CheckedAdd(left: int64, right: int64): (r: Checked)
    ensures r.Fits? <==> InRange(left as int + right as int)
    ensures r.Fits? ==> r.value as int == left as int + right as int
  {
    if (right > 0 && left > 0x7fff_ffff_ffff_ffff - right) || (right < 0 && left < -0x8000_0000_0000_0000 - right)
    then Overflow
    else Fits(left + right)
  }

  const WORD: int := 0x1_0000_0000_0000_0000

  ghost predicate SameWord(a: int, b: int) { (a - b) % WORD == 0 }

  lemma SameWordStep(next: int, total: int, exact: int, x: int)
    requires SameWord(next, total + x) && SameWord(total, exact)
    ensures SameWord(next, exact + x)
  {
    var j, k := (next - (total + x)) / WORD, (total - exact) / WORD;
    assert next - (exact + x) == (j + k) * WORD;
  }

  /** A word stands for one int64 only. */
  lemma SameWordUnique(a: int64, b: int)
    requires SameWord(a as int, b) && InRange(b)
    ensures a as int == b
  {
  }

  /** Go's unchecked `+`. */
  function WrapAdd(a: int64, b: int64): (r: int64)
    ensures InRange(a as int + b as int) ==> r as int == a as int + b as int
    ensures SameWord(r as int, a as int + b as int)
  {
    var sum := a as int + b as int;
    if sum > 0x7fff_ffff_ffff_ffff then (sum - WORD) as int64
    else if sum < -0x8000_0000_0000_0000 then (sum + WORD) as int64
    else sum as int64
  }

  ghost function Sum(values: seq<int64>): int {
    if values == [] then 0 else Sum(values[..|values| - 1]) + values[|values| - 1] as int
  }

  /** Fails as soon as one prefix overflows, even where later negative values would bring the total
      back into range. */
  method CheckedSum(values: seq<int64>) returns (r: Checked)
    ensures r.Fits? <==> forall k :: 0 <= k <= |values| ==> InRange(Sum(values[..k]))
    ensures r.Fits? ==> r.value as int == Sum(values)
  {
    var total: int64 := 0;
    for i := 0 to |values|
      invariant total as int == Sum(values[..i])
      invariant forall k :: 0 <= k <= i ==> InRange(Sum(values[..k]))
    {
      assert values[..i + 1][..i] == values[..i];
      var next := CheckedAdd(total, values[i]);
      if next.Overflow? {
        assert !InRange(Sum(values[..i + 1]));
        return Overflow;
      }
      total := next.value;
    }
    assert values[..|values|] == values;
    return Fits(total);
  }

  lemma QuotientBounds(m: int, d: int)
    requires 0 <= m && 0 < d
    ensures m / d * d <= m < m / d * d + d
  {
  }

  lemma MulMonotone(a: int, x: int, y: int)
    requires 0 <= a && x <= y
    ensures a * x <= a * y
  {
  }

  lemma ProductFits(left: int, right: int)
    requires 0 < left && 0 <= right
    ensures right <= MAX / left <==> left * right <= MAX
  {
    QuotientBounds(MAX, left);
    if right <= MAX / left {
      MulMonotone(left, right, MAX / left);
    } else {
      MulMonotone(left, MAX / left + 1, right);
    }
  }

  function CheckedMultiply(left: int64, right: int64): (r: Checked)
    ensures r.Fits? <==> left >= 0 && right >= 0 && left as int * right as int <= MAX
    ensures r.Fits? ==> r.value as int == left as int * right as int
  {
    if left < 0 || right < 0 || (left != 0 && right > 0x7fff_ffff_ffff_ffff / left) then
      if left > 0 && right >= 0 then ProductFits(left as int, right as int); Overflow else Overflow
    else if left == 0 then Fits(0)
    else
      ProductFits(left as int, right as int);
      Fits(left * right)
  }

  ghost predicate LeastGiBMultiple(value: int, up: int) {
    up % GIB == 0 && value <= up < value + GIB
  }

  function RoundUpGiB(value: int64): (r: Checked)
    ensures r.Fits? <==> 0 <= value as int <= MAX - (GIB - 1)
    ensures r.Fits? ==> LeastGiBMultiple(value as int, r.value as int)
  {
    if value < 0 then Overflow
    else
      var adjusted := CheckedAdd(value, 0x3fff_ffff);
      if adjusted.Overflow? then Overflow else Fits(adjusted.value / 0x4000_0000 * 0x4000_0000)
  }

  /** No multiple of one GiB lies in `[value, up)`. */
  lemma LeastGiBMultipleIsLeast(value: int, up: int, other: int)
    requires LeastGiBMultiple(value, up)
    requires other % GIB == 0 && value <= other
    ensures up <= other
  {
  }
}
