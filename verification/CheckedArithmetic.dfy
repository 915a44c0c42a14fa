/** Sums and products of unsigned 64-bit numbers, tested for overflow first. */
module CheckedArithmetic {
  import opened Arithmetic
  import opened Basics

  /** None on overflow. */
  function AddU64(a: u64, b: u64): (r: Option<u64>)
    ensures r == if a + b < TWO_64 then Some(a + b) else None
  {
    if TWO_64 - 1 - a < b then None else Some(a + b)
  }

  /** None on overflow; see CheckedProduct for why the test is exact. */
  function MulU64(a: u64, b: u64): (r: Option<u64>) {
    if a != 0 && b > (TWO_64 - 1) / a then None
    else
      CheckedProduct(a, b);
      Some(a * b)
  }

  lemma CheckedProduct(a: u64, b: u64)
    ensures a != 0 && b > (TWO_64 - 1) / a <==> a * b >= TWO_64
    ensures a * b >= 0
  {
    if a != 0 {
      var q: nat, r: nat := (TWO_64 - 1) / a, (TWO_64 - 1) % a;
      assert TWO_64 - 1 == q * a + r;
      RowsGrow(a, 0, b);
      if b <= q {
        RowsGrow(a, b, q);
      } else {
        RowsGrow(a, q + 1, b);
        assert (q + 1) * a == q * a + a;
      }
    }
  }

  lemma MulU64Exactly(a: u64, b: u64)
    ensures MulU64(a, b) == if a * b < TWO_64 then Some(a * b) else None
  {
    CheckedProduct(a, b);
  }
}
