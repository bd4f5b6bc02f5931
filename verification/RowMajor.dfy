/** The row-major order of a product of two sequences: the second varies fastest. */
module RowMajor {
  lemma ProductIsMonotone(a: int, b: int, width: nat)
    ensures a <= b ==> a * width <= b * width
  {
    if a <= b {
      assert (b - a) * width >= 0;
    }
  }

  lemma IndexInRange(rows: nat, width: nat, i: nat)
    requires i < rows * width
    ensures width > 0 && i / width < rows && i % width < width
  {
    if width > 0 {
      ProductIsMonotone(rows, i / width, width);
    }
  }

  /** The i-th pair of the product. */
  function Cell<A, B>(rows: seq<A>, columns: seq<B>, i: nat): (A, B)
    requires i < |rows| * |columns|
  {
    IndexInRange(|rows|, |columns|, i);
    (rows[i / |columns|], columns[i % |columns|])
  }

  lemma RowFits(s: nat, rows: nat, width: nat)
    requires s < rows
    ensures s * width + width <= rows * width
  {
    ProductIsMonotone(s + 1, rows, width);
  }

  lemma Division(s: nat, t: nat, width: nat)
    requires t < width
    ensures (s * width + t) / width == s && (s * width + t) % width == t
  {
    var n := s * width + t;
    var q, r := n / width, n % width;
    assert n == q * width + r;
    SmallMultiple(q - s, width, t - r);
  }

  lemma SmallMultiple(d: int, width: int, x: int)
    requires width >= 0 && d * width == x && -width < x < width
    ensures d == 0
  {
    ProductIsMonotone(1, d, width);
    ProductIsMonotone(d, -1, width);
  }

  lemma CellOfRow<A, B>(rows: seq<A>, columns: seq<B>, s: nat, t: nat)
    requires s < |rows| && t < |columns|
    ensures s * |columns| + t < |rows| * |columns|
    ensures Cell(rows, columns, s * |columns| + t) == (rows[s], columns[t])
  {
    RowFits(s, |rows|, |columns|);
    Division(s, t, |columns|);
  }

  /** With distinct rows and distinct columns no cell repeats. */
  lemma CellsAreDistinct<A, B>(rows: seq<A>, columns: seq<B>, i: nat, j: nat)
    requires i < j < |rows| * |columns|
    requires forall a, b :: 0 <= a < b < |rows| ==> rows[a] != rows[b]
    requires forall a, b :: 0 <= a < b < |columns| ==> columns[a] != columns[b]
    ensures Cell(rows, columns, i) != Cell(rows, columns, j)
  {
    IndexInRange(|rows|, |columns|, i);
    IndexInRange(|rows|, |columns|, j);
    if i / |columns| == j / |columns| && i % |columns| == j % |columns| {
      SameCell(i, j, |columns|);
    }
  }

  lemma SameCell(i: nat, j: nat, width: nat)
    requires width > 0 && i / width == j / width && i % width == j % width
    ensures i == j
  {
    assert i == i / width * width + i % width;
  }
}
