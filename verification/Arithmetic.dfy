/** Rows of equal width: positions in them, and scanning around a circle. */
module Arithmetic {
  lemma {:induction false} RowsGrow(width: nat, q: nat, q': nat)
    requires q <= q'
    ensures q * width <= q' * width
    decreases q' - q
  {
    if q < q' {
      RowsGrow(width, q, q' - 1);
      assert q' * width == (q' - 1) * width + width;
    }
  }

  lemma Distinct(width: nat, q: nat, r: nat, q': nat, r': nat)
    requires r < width && r' < width && q < q'
    ensures q * width + r < q' * width + r'
  {
    RowsGrow(width, q + 1, q');
    assert (q + 1) * width == q * width + width;
  }

  lemma InRow(row: nat, rows: nat, width: nat, b: nat)
    requires row < rows && b < width
    ensures row * width + b < rows * width
    ensures (row * width + b) / width == row && (row * width + b) % width == b
  {
    Distinct(width, row, b, rows, 0);
    var k := row * width + b;
    RowOf(k, rows, width);
    var row' := k / width;
    if row' < row {
      Distinct(width, row', k % width, row, b);
    } else if row < row' {
      Distinct(width, row, b, row', k % width);
    }
  }

  lemma RowOf(k: nat, rows: nat, width: nat)
    requires 0 < width && k < rows * width
    ensures k / width < rows && k == k / width * width + k % width
  {
    var row, b := k / width, k % width;
    assert k == row * width + b;
    if rows < row {
      Distinct(width, rows, 0, row, b);
    }
  }

  /** A scan of n steps from anywhere on a circle of n reaches every place. */
  lemma ScanReaches(from: nat, n: nat, i: nat) returns (a: nat)
    requires i < n
    ensures a < n && (from + a) % n == i
  {
    var q, r := from / n, from % n;
    assert from == q * n + r;
    if r <= i {
      a := i - r;
      RemainderOf(q, n, i);
    } else {
      a := i + n - r;
      assert (q + 1) * n == q * n + n;
      RemainderOf(q + 1, n, i);
    }
  }

  lemma RemainderOf(q: nat, n: nat, i: nat)
    requires i < n
    ensures (q * n + i) % n == i
  {
    assert (q + 1) * n == q * n + n;
    InRow(q, q + 1, n, i);
  }
}
