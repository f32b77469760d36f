/** The longest-common-subsequence fallback: a table of suffix lengths and a greedy walk over it. */
module CommonSubsequence {
  import opened Matching
  import opened Numbers
  import Seqs

  const MAX_LCS_CELLS: nat := 4_000_000

  /** The length of a longest common subsequence of the box's two ranges. */
  function LcsLength<T(==)>(base: seq<T>, side: seq<T>, box: Box): (length: nat)
    requires Fits(base, side, box)
    decreases box.b1 - box.b0 + box.s1 - box.s0
  {
    if box.b0 == box.b1 || box.s0 == box.s1 then 0
    else if base[box.b0] == side[box.s0] then 1 + LcsLength(base, side, box.(b0 := box.b0 + 1, s0 := box.s0 + 1))
    else Max(LcsLength(base, side, box.(b0 := box.b0 + 1)), LcsLength(base, side, box.(s0 := box.s0 + 1)))
  }

  /** No matching of the box is longer than `LcsLength`. */
  lemma {:induction false} LcsLengthBounds<T>(base: seq<T>, side: seq<T>, box: Box, pairs: seq<Pair>)
    requires Fits(base, side, box) && IsMatching(base, side, box, pairs)
    ensures |pairs| <= LcsLength(base, side, box)
    decreases box.b1 - box.b0 + box.s1 - box.s0
  {
    if pairs != [] {
      if base[box.b0] == side[box.s0] {
        var rest := box.(b0 := box.b0 + 1, s0 := box.s0 + 1);
        Widen(base, side, box.(b0 := pairs[0].0 + 1, s0 := pairs[0].1 + 1), rest, pairs[1..]);
        LcsLengthBounds(base, side, rest, pairs[1..]);
      } else if pairs[0].0 != box.b0 {
        LcsLengthBounds(base, side, box.(b0 := box.b0 + 1), pairs);
      } else {
        LcsLengthBounds(base, side, box.(s0 := box.s0 + 1), pairs);
      }
    }
  }

  /** The greedy walk: take equal heads, otherwise step to the suffix with the larger length, base first. */
  function LcsWalk<T(==)>(base: seq<T>, side: seq<T>, box: Box): (pairs: seq<Pair>)
    requires Fits(base, side, box)
    decreases box.b1 - box.b0 + box.s1 - box.s0
  {
    if box.b0 == box.b1 || box.s0 == box.s1 then []
    else if base[box.b0] == side[box.s0] then
      [(box.b0, box.s0)] + LcsWalk(base, side, box.(b0 := box.b0 + 1, s0 := box.s0 + 1))
    else if LcsLength(base, side, box.(b0 := box.b0 + 1)) >= LcsLength(base, side, box.(s0 := box.s0 + 1)) then
      LcsWalk(base, side, box.(b0 := box.b0 + 1))
    else
      LcsWalk(base, side, box.(s0 := box.s0 + 1))
  }

  /** The walk emits a matching, and one of maximum length. */
  lemma {:induction false} LcsWalkIsLongest<T>(base: seq<T>, side: seq<T>, box: Box)
    requires Fits(base, side, box)
    ensures IsMatching(base, side, box, LcsWalk(base, side, box))
    ensures |LcsWalk(base, side, box)| == LcsLength(base, side, box)
    decreases box.b1 - box.b0 + box.s1 - box.s0
  {
    if box.b0 == box.b1 || box.s0 == box.s1 {
    } else if base[box.b0] == side[box.s0] {
      var rest := box.(b0 := box.b0 + 1, s0 := box.s0 + 1);
      LcsWalkIsLongest(base, side, rest);
      Seqs.ConcatTail((box.b0, box.s0), LcsWalk(base, side, rest));
    } else {
      var fewerBase, fewerSide := box.(b0 := box.b0 + 1), box.(s0 := box.s0 + 1);
      LcsWalkIsLongest(base, side, fewerBase);
      LcsWalkIsLongest(base, side, fewerSide);
      Widen(base, side, fewerBase, box, LcsWalk(base, side, fewerBase));
      Widen(base, side, fewerSide, box, LcsWalk(base, side, fewerSide));
    }
  }

  /** The walk, or nothing where the table would exceed the cell limit. */
  function LcsMatches<T(==)>(base: seq<T>, side: seq<T>, box: Box): (pairs: seq<Pair>)
    requires Fits(base, side, box)
  {
    if (box.b1 - box.b0) * (box.s1 - box.s0) > MAX_LCS_CELLS then [] else LcsWalk(base, side, box)
  }

  /** The row-major position of a table cell. */
  function Cell(x: nat, y: nat, width: nat): nat {
    x * width + y
  }

  lemma {:induction false} CellFits(x: nat, y: nat, rows: nat, width: nat)
    requires x < rows && y < width
    ensures Cell(x, y, width) < rows * width
  {
    assert (x + 1) * width <= rows * width;
  }

  lemma {:induction false} CellsDiffer(x: nat, y: nat, x': nat, y': nat, width: nat)
    requires y < width && y' < width && (x != x' || y != y')
    ensures Cell(x, y, width) != Cell(x', y', width)
  {
    if x < x' {
      assert (x + 1) * width <= x' * width;
    } else if x' < x {
      assert (x' + 1) * width <= x * width;
    }
  }

  ghost predicate CellHolds<T>(base: seq<T>, side: seq<T>, box: Box, lengths: array<nat>, x: nat, y: nat)
    requires Fits(base, side, box) && x <= box.b1 - box.b0 && y <= box.s1 - box.s0
    reads lengths
  {
    var cell := Cell(x, y, box.s1 - box.s0 + 1);
    && cell < lengths.Length
    && lengths[cell] == LcsLength(base, side, box.(b0 := box.b0 + x, s0 := box.s0 + y))
  }

  /** The cells from (i, j) on in row order, and the whole last column, hold their suffix lengths. */
  ghost predicate Filled<T>(base: seq<T>, side: seq<T>, box: Box, lengths: array<nat>, i: nat, j: nat)
    requires Fits(base, side, box)
    reads lengths
  {
    forall x, y |
      && 0 <= x <= box.b1 - box.b0 && 0 <= y <= box.s1 - box.s0
      && (i < x || (i == x && j <= y) || y == box.s1 - box.s0) :: CellHolds(base, side, box, lengths, x, y)
  }

  method FillCell<T(==)>(base: seq<T>, side: seq<T>, box: Box, lengths: array<nat>, i: nat, j: nat)
    requires Fits(base, side, box) && i < box.b1 - box.b0 && j < box.s1 - box.s0
    requires lengths.Length == (box.b1 - box.b0 + 1) * (box.s1 - box.s0 + 1)
    requires Filled(base, side, box, lengths, i, j + 1)
    modifies lengths
    ensures Filled(base, side, box, lengths, i, j)
  {
    var width := box.s1 - box.s0 + 1;
    assert CellHolds(base, side, box, lengths, i + 1, j + 1);
    assert CellHolds(base, side, box, lengths, i + 1, j);
    assert CellHolds(base, side, box, lengths, i, j + 1);
    CellFits(i, j, box.b1 - box.b0 + 1, width);
    lengths[Cell(i, j, width)] :=
      if base[box.b0 + i] == side[box.s0 + j] then 1 + lengths[Cell(i + 1, j + 1, width)]
      else Max(lengths[Cell(i + 1, j, width)], lengths[Cell(i, j + 1, width)]);
    forall x, y | 0 <= x <= box.b1 - box.b0 && 0 <= y <= box.s1 - box.s0 &&
      (i < x || (i == x && j <= y) || y == box.s1 - box.s0)
      ensures CellHolds(base, side, box, lengths, x, y)
    {
      if x != i || y != j {
        assert old(CellHolds(base, side, box, lengths, x, y));
        CellsDiffer(x, y, i, j, width);
      }
    }
  }

  method NewTable<T(==)>(base: seq<T>, side: seq<T>, box: Box) returns (lengths: array<nat>)
    requires Fits(base, side, box)
    ensures fresh(lengths) && lengths.Length == (box.b1 - box.b0 + 1) * (box.s1 - box.s0 + 1)
    ensures Filled(base, side, box, lengths, box.b1 - box.b0, 0)
  {
    hide LcsLength, Cell;
    var baseLen, sideLen := box.b1 - box.b0, box.s1 - box.s0;
    var width := sideLen + 1;
    lengths := new nat[(baseLen + 1) * width](_ => 0);
    forall x, y | 0 <= x <= baseLen && 0 <= y <= sideLen && (x == baseLen || y == sideLen)
      ensures CellHolds(base, side, box, lengths, x, y)
    {
      CellFits(x, y, baseLen + 1, width);
      NothingLeft(base, side, box.(b0 := box.b0 + x, s0 := box.s0 + y));
      assert lengths[Cell(x, y, width)] == 0;
    }
  }

  lemma {:induction false} NothingLeft<T>(base: seq<T>, side: seq<T>, box: Box)
    requires Fits(base, side, box) && (box.b0 == box.b1 || box.s0 == box.s1)
    ensures LcsLength(base, side, box) == 0
  {
  }

  /** Every table entry is the length of a longest common subsequence of the two suffixes it stands for. */
  method FillTable<T(==)>(base: seq<T>, side: seq<T>, box: Box) returns (lengths: array<nat>)
    requires Fits(base, side, box)
    ensures fresh(lengths) && Filled(base, side, box, lengths, 0, 0)
  {
    lengths := NewTable(base, side, box);
    for i := box.b1 - box.b0 downto 0
      invariant Filled(base, side, box, lengths, i, 0)
    {
      for j := box.s1 - box.s0 downto 0
        invariant Filled(base, side, box, lengths, i, j)
      {
        FillCell(base, side, box, lengths, i, j);
      }
    }
  }

  /** Appends to `matches` exactly what `LcsMatches` says. */
  method CollectLcsMatches<T(==)>(base: seq<T>, side: seq<T>, box: Box, matches: seq<Pair>)
    returns (result: seq<Pair>)
    requires Fits(base, side, box)
    ensures result == matches + LcsMatches(base, side, box)
  {
    result := matches;
    var baseLen, sideLen := box.b1 - box.b0, box.s1 - box.s0;
    if baseLen == 0 || sideLen == 0 {
      return;
    }
    if baseLen * sideLen > MAX_LCS_CELLS {
      return;
    }
    var width := sideLen + 1;
    var lengths := FillTable(base, side, box);
    var i, j := 0, 0;
    while i < baseLen && j < sideLen
      invariant i <= baseLen && j <= sideLen
      invariant result + LcsWalk(base, side, box.(b0 := box.b0 + i, s0 := box.s0 + j)) ==
                matches + LcsWalk(base, side, box)
      decreases baseLen - i + sideLen - j
    {
      assert CellHolds(base, side, box, lengths, i + 1, j);
      assert CellHolds(base, side, box, lengths, i, j + 1);
      if base[box.b0 + i] == side[box.s0 + j] {
        result := result + [(box.b0 + i, box.s0 + j)];
        i, j := i + 1, j + 1;
      } else if lengths[Cell(i + 1, j, width)] >= lengths[Cell(i, j + 1, width)] {
        i := i + 1;
      } else {
        j := j + 1;
      }
    }
  }
}
