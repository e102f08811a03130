/**
 * The 2048 line collapse: one row or column slides toward its leading end,
 * equal neighbours merge once, and the rest is padded with empty cells (0).
 */
module Lines {
  import opened Common

  /** The line with its empty cells removed, order kept (`values.filter(v => v !== 0)`). */
  function NonZeros(s: seq<int>): (r: seq<int>)
    ensures |r| <= |s|
  {
    if s == [] then [] else (if s[0] == 0 then [] else [s[0]]) + NonZeros(s[1..])
  }

  predicate NoZeros(s: seq<int>)
  {
    forall i :: 0 <= i < |s| ==> s[i] != 0
  }

  /** Greedy single-pass merge of a zero-free line: a merged pair is final. */
  function Merge(f: seq<int>): (r: seq<int>)
    ensures |r| <= |f|
  {
    if |f| == 0 then []
    else if |f| >= 2 && f[0] == f[1] then [2 * f[0]] + Merge(f[2..])
    else [f[0]] + Merge(f[1..])
  }

  /** The score a merge pass earns: the sum of the values the merges produce. */
  function MergeGain(f: seq<int>): int
  {
    if |f| == 0 then 0
    else if |f| >= 2 && f[0] == f[1] then 2 * f[0] + MergeGain(f[2..])
    else MergeGain(f[1..])
  }

  /** How many pairs a merge pass combines. */
  function Merges(f: seq<int>): nat
  {
    if |f| == 0 then 0
    else if |f| >= 2 && f[0] == f[1] then 1 + Merges(f[2..])
    else Merges(f[1..])
  }

  function Zeros(n: nat): (r: seq<int>)
    ensures |r| == n
  {
    seq(n, _ => 0)
  }

  datatype Collapse = Collapse(line: seq<int>, gained: int)

  /** What `collapseLine` returns for `values`. */
  function Collapsed(values: seq<int>): (c: Collapse)
    ensures |c.line| == |values|
  {
    var merged := Merge(NonZeros(values));
    Collapse(merged + Zeros(|values| - |merged|), MergeGain(NonZeros(values)))
  }

  /** `collapseLine`: filter, one merge pass with the index skip, then pad with zeros. */
  method CollapseLine(values: seq<int>) returns (line: seq<int>, gained: int)
    ensures Collapse(line, gained) == Collapsed(values)
  {
    var filtered := NonZeros(values);
    var merged;
    merged, gained := MergePass(filtered);
    while |merged| < |values|
      invariant |Merge(filtered)| <= |merged| <= |values|
      invariant merged == Merge(filtered) + Zeros(|merged| - |Merge(filtered)|)
      decreases |values| - |merged|
    {
      ZerosStep(Merge(filtered), |merged| - |Merge(filtered)|);
      merged := merged + [0];
    }
    line := merged;
  }

  /**
   * The merge loop of `collapseLine`: walk the zero-free line, doubling a tile
   * equal to its right neighbour and skipping that neighbour.
   */
  method MergePass(filtered: seq<int>) returns (merged: seq<int>, gained: int)
    ensures merged == Merge(filtered) && gained == MergeGain(filtered)
  {
    merged := [];
    gained := 0;
    var i := 0;
    while i < |filtered|
      invariant 0 <= i <= |filtered|
      invariant merged + Merge(filtered[i..]) == Merge(filtered)
      invariant gained + MergeGain(filtered[i..]) == MergeGain(filtered)
    {
      if i + 1 < |filtered| && filtered[i] == filtered[i + 1] {
        MergePairStep(filtered, i, merged);
        var val := filtered[i] * 2;
        merged := merged + [val];
        gained := gained + val;
        i := i + 2;
      } else {
        MergeSingleStep(filtered, i, merged);
        merged := merged + [filtered[i]];
        i := i + 1;
      }
    }
    assert filtered[i..] == [];
  }

  /** A step of the merge loop that combines the pair at `i` and `i + 1`. */
  lemma MergePairStep(f: seq<int>, i: nat, merged: seq<int>)
    requires i + 1 < |f| && f[i] == f[i + 1]
    ensures merged + [f[i] * 2] + Merge(f[i + 2..]) == merged + Merge(f[i..])
    ensures MergeGain(f[i..]) == f[i] * 2 + MergeGain(f[i + 2..])
  {
    assert f[i..][2..] == f[i + 2..];
  }

  /** A step of the merge loop that keeps the tile at `i` as it is. */
  lemma MergeSingleStep(f: seq<int>, i: nat, merged: seq<int>)
    requires i < |f| && !(i + 1 < |f| && f[i] == f[i + 1])
    ensures merged + [f[i]] + Merge(f[i + 1..]) == merged + Merge(f[i..])
    ensures MergeGain(f[i..]) == MergeGain(f[i + 1..])
  {
    assert f[i..][1..] == f[i + 1..];
  }

  lemma ZerosStep(packed: seq<int>, k: nat)
    ensures packed + Zeros(k) + [0] == packed + Zeros(k + 1)
  {
  }

  /** Some position below `k` holds different values in `a` and `b`. */
  predicate DifferBefore(a: seq<int>, b: seq<int>, k: nat)
    requires k <= |a| && k <= |b|
  {
    k > 0 && (DifferBefore(a, b, k - 1) || a[k - 1] != b[k - 1])
  }

  /** `!arraysEqual(a, b)`: the lengths differ, or some position does. */
  predicate Differ(a: seq<int>, b: seq<int>)
  {
    |a| != |b| || DifferBefore(a, b, |a|)
  }

  lemma {:induction false} DifferBeforeExists(a: seq<int>, b: seq<int>, k: nat)
    requires k <= |a| && k <= |b|
    ensures DifferBefore(a, b, k) <==> exists i :: 0 <= i < k && a[i] != b[i]
  {
    if k > 0 {
      DifferBeforeExists(a, b, k - 1);
    }
  }

  /** The element-by-element comparison agrees with sequence equality. */
  lemma DifferIff(a: seq<int>, b: seq<int>)
    ensures Differ(a, b) <==> a != b
  {
    if |a| == |b| {
      DifferBeforeExists(a, b, |a|);
    }
  }

  /** `arraysEqual`: element-by-element comparison with an early exit. */
  method ArraysEqual(a: seq<int>, b: seq<int>) returns (same: bool)
    ensures same <==> a == b
    ensures same <==> !Differ(a, b)
  {
    DifferIff(a, b);
    if |a| != |b| {
      return false;
    }
    var i := 0;
    while i < |a|
      invariant 0 <= i <= |a|
      invariant a[..i] == b[..i]
    {
      if a[i] != b[i] {
        return false;
      }
      assert a[..i + 1] == a[..i] + [a[i]];
      assert b[..i + 1] == b[..i] + [b[i]];
      i := i + 1;
    }
    assert a == a[..i] && b == b[..i];
    return true;
  }

  datatype Slide = Slide(line: seq<int>, gained: int, moved: bool)

  /** What `slideRow(row, reverse)` returns: the collapse toward the start, or toward the end. */
  function Slid(row: seq<int>, reverse: bool): (s: Slide)
    ensures |s.line| == |row|
  {
    var working := if reverse then Reverse(row) else row;
    var c := Collapsed(working);
    var finalLine := if reverse then Reverse(c.line) else c.line;
    Slide(finalLine, c.gained, Differ(row, finalLine))
  }

  /** `slideRow`: reverse if asked, collapse, reverse back, compare with the input. */
  method SlideRow(row: seq<int>, reverse: bool) returns (s: Slide)
    ensures s == Slid(row, reverse)
  {
    var working := if reverse then Reverse(row) else row;
    var line, gained := CollapseLine(working);
    var finalLine := if reverse then Reverse(line) else line;
    var same := ArraysEqual(row, finalLine);
    s := Slide(finalLine, gained, !same);
  }

  // ---------------------------------------------------------------------
  // Facts about the pieces

  lemma {:induction false} NonZerosHasNoZeros(s: seq<int>)
    ensures NoZeros(NonZeros(s))
  {
    if s != [] {
      NonZerosHasNoZeros(s[1..]);
    }
  }

  lemma {:induction false} NonZerosAppend(a: seq<int>, b: seq<int>)
    ensures NonZeros(a + b) == NonZeros(a) + NonZeros(b)
  {
    if a == [] {
      assert a + b == b;
    } else {
      assert (a + b)[1..] == a[1..] + b;
      NonZerosAppend(a[1..], b);
    }
  }

  lemma {:induction false} NonZerosOfZeroFree(s: seq<int>)
    requires NoZeros(s)
    ensures NonZeros(s) == s
  {
    if s != [] {
      NonZerosOfZeroFree(s[1..]);
    }
  }

  lemma {:induction false} NonZerosOfZeros(n: nat)
    ensures NonZeros(Zeros(n)) == []
  {
    if n > 0 {
      assert Zeros(n)[1..] == Zeros(n - 1);
      NonZerosOfZeros(n - 1);
    }
  }

  /** Filtering removes nothing only from a line that has no empty cell. */
  lemma {:induction false} NonZerosFull(s: seq<int>)
    requires |NonZeros(s)| == |s|
    ensures NonZeros(s) == s && NoZeros(s)
  {
    if s != [] {
      NonZerosFull(s[1..]);
    }
  }

  lemma {:induction false} NonZerosSum(s: seq<int>)
    ensures Sum(NonZeros(s)) == Sum(s)
  {
    if s != [] {
      var head := if s[0] == 0 then [] else [s[0]];
      SumAppend(head, NonZeros(s[1..]));
      NonZerosSum(s[1..]);
    }
  }

  lemma {:induction false} MergeKeepsZeroFree(f: seq<int>)
    requires NoZeros(f)
    ensures NoZeros(Merge(f))
  {
    if |f| >= 2 && f[0] == f[1] {
      MergeKeepsZeroFree(f[2..]);
    } else if |f| > 0 {
      MergeKeepsZeroFree(f[1..]);
    }
  }

  /** Every merge removes exactly one cell, and a pass merges at most half the cells. */
  lemma {:induction false} MergeCount(f: seq<int>)
    ensures |Merge(f)| == |f| - Merges(f)
    ensures 2 * Merges(f) <= |f|
  {
    if |f| >= 2 && f[0] == f[1] {
      MergeCount(f[2..]);
    } else if |f| > 0 {
      MergeCount(f[1..]);
    }
  }

  /** A pass that merges nothing returns its input and earns nothing. */
  lemma {:induction false} MergeWithoutMerges(f: seq<int>)
    requires Merges(f) == 0
    ensures Merge(f) == f && MergeGain(f) == 0
  {
    if |f| >= 2 && f[0] == f[1] {
    } else if |f| > 0 {
      MergeWithoutMerges(f[1..]);
    }
  }

  lemma {:induction false} MergeSum(f: seq<int>)
    ensures Sum(Merge(f)) == Sum(f)
  {
    if |f| >= 2 && f[0] == f[1] {
      MergeSum(f[2..]);
      SumAppend([2 * f[0]], Merge(f[2..]));
      assert Sum(f) == f[0] + Sum(f[1..]) == f[0] + f[1] + Sum(f[2..]) by {
        assert f[1..][1..] == f[2..];
      }
    } else if |f| > 0 {
      MergeSum(f[1..]);
      SumAppend([f[0]], Merge(f[1..]));
    }
  }

  /** With positive tiles, the gain is between nothing and the line's total, and is zero exactly without merges. */
  lemma {:induction false} MergeGainBounds(f: seq<int>)
    requires forall i :: 0 <= i < |f| ==> f[i] > 0
    ensures 0 <= MergeGain(f) <= Sum(f)
    ensures MergeGain(f) == 0 <==> Merges(f) == 0
  {
    if |f| >= 2 && f[0] == f[1] {
      MergeGainBounds(f[2..]);
      assert Sum(f) == f[0] + f[1] + Sum(f[2..]) by {
        assert f[1..][1..] == f[2..];
      }
    } else if |f| > 0 {
      MergeGainBounds(f[1..]);
    }
  }

  lemma {:induction false} MergeOfDistinctNeighbours(f: seq<int>)
    requires forall i :: 0 <= i < |f| - 1 ==> f[i] != f[i + 1]
    ensures Merge(f) == f
  {
    if |f| > 0 {
      MergeOfDistinctNeighbours(f[1..]);
    }
  }

  // ---------------------------------------------------------------------
  // The promises of collapseLine

  /**
   * The result keeps the line's length, holds every tile before every empty
   * cell, and its tiles are the merge of the input's tiles.
   */
  lemma CollapsedPacked(values: seq<int>)
    ensures var c := Collapsed(values);
      && |c.line| == |values|
      && NonZeros(c.line) == Merge(NonZeros(values))
      && forall i, j :: 0 <= i < j < |c.line| && c.line[i] == 0 ==> c.line[j] == 0
  {
    var f := NonZeros(values);
    var m := Merge(f);
    NonZerosHasNoZeros(values);
    MergeKeepsZeroFree(f);
    NonZerosAppend(m, Zeros(|values| - |m|));
    NonZerosOfZeroFree(m);
    NonZerosOfZeros(|values| - |m|);
    var line := Collapsed(values).line;
    forall i, j | 0 <= i < j < |line| && line[i] == 0
      ensures line[j] == 0
    {
      assert i >= |m|;
    }
  }

  /** Collapsing conserves the total of the line. */
  lemma CollapsedConserves(values: seq<int>)
    ensures Sum(Collapsed(values).line) == Sum(values)
  {
    var f := NonZeros(values);
    var m := Merge(f);
    SumAppend(m, Zeros(|values| - |m|));
    ZerosSum(|values| - |m|);
    MergeSum(f);
    NonZerosSum(values);
  }

  lemma {:induction false} ZerosSum(n: nat)
    ensures Sum(Zeros(n)) == 0
  {
    if n > 0 {
      assert Zeros(n)[1..] == Zeros(n - 1);
      ZerosSum(n - 1);
    }
  }

  /**
   * The tile count drops by exactly the number of merges, and never below
   * half of it: a merged tile does not merge again in the same pass.
   */
  lemma CollapsedTileCount(values: seq<int>)
    ensures var f := NonZeros(values);
      && |NonZeros(Collapsed(values).line)| == |f| - Merges(f)
      && 2 * |NonZeros(Collapsed(values).line)| >= |f|
  {
    CollapsedPacked(values);
    MergeCount(NonZeros(values));
  }

  /** On tiles (positive values) the gain is the merged value, bounded by the line's total, and zero exactly without a merge. */
  lemma CollapsedGain(values: seq<int>)
    requires forall i :: 0 <= i < |values| ==> values[i] >= 0
    ensures var c := Collapsed(values);
      && 0 <= c.gained <= Sum(values)
      && (c.gained == 0 <==> |NonZeros(c.line)| == |NonZeros(values)|)
  {
    var f := NonZeros(values);
    PositiveAfterFilter(values);
    MergeGainBounds(f);
    NonZerosSum(values);
    CollapsedTileCount(values);
  }

  lemma {:induction false} PositiveAfterFilter(values: seq<int>)
    requires forall i :: 0 <= i < |values| ==> values[i] >= 0
    ensures forall i :: 0 <= i < |NonZeros(values)| ==> NonZeros(values)[i] > 0
  {
    if values != [] {
      PositiveAfterFilter(values[1..]);
    }
  }

  /** A collapse that returns its input unchanged merged nothing and earned nothing. */
  lemma CollapsedStill(values: seq<int>)
    requires Collapsed(values).line == values
    ensures Collapsed(values).gained == 0
  {
    var f := NonZeros(values);
    CollapsedPacked(values);
    MergeCount(f);
    assert Merge(f) == f;
    MergeWithoutMerges(f);
  }

  /** A collapse that changes the line leaves an empty cell in it, and so at its end. */
  lemma CollapsedLeavesGap(values: seq<int>)
    requires Collapsed(values).line != values
    ensures exists k :: 0 <= k < |values| && Collapsed(values).line[k] == 0
    ensures |values| > 0 && Collapsed(values).line[|values| - 1] == 0
  {
    var f := NonZeros(values);
    var m := Merge(f);
    var line := Collapsed(values).line;
    if |m| < |values| {
      assert line[|m|] == 0 && line[|values| - 1] == 0;
    } else {
      MergeCount(f);
      NonZerosFull(values);
      MergeWithoutMerges(f);
      assert false;
    }
  }

  /** A full line with no equal neighbours does not change. */
  lemma CollapsedFixed(values: seq<int>)
    requires NoZeros(values)
    requires forall i :: 0 <= i < |values| - 1 ==> values[i] != values[i + 1]
    ensures Collapsed(values).line == values
  {
    NonZerosOfZeroFree(values);
    MergeOfDistinctNeighbours(values);
    assert Zeros(0) == [];
  }

  /** The documented example of no cascading merge: [2,2,2,2] becomes [4,4,0,0], not [8,0,0,0]. */
  lemma CollapsedNoCascade()
    ensures Collapsed([2, 2, 2, 2]) == Collapse([4, 4, 0, 0], 8)
  {
    assert NonZeros([2, 2, 2, 2]) == [2, 2, 2, 2] by {
      assert [2, 2, 2, 2][1..] == [2, 2, 2];
      assert [2, 2, 2][1..] == [2, 2];
      assert [2, 2][1..] == [2];
      assert [2][1..] == [];
    }
    assert [2, 2, 2, 2][2..] == [2, 2];
    assert [2, 2][2..] == [];
    assert Merge([2, 2, 2, 2]) == [4, 4];
    assert MergeGain([2, 2, 2, 2]) == 8;
  }

  /** Empty cells are skipped before merging: [2,0,2,4] becomes [4,4,0,0]. */
  lemma CollapsedSkipsGaps()
    ensures Collapsed([2, 0, 2, 4]) == Collapse([4, 4, 0, 0], 4)
  {
    assert NonZeros([2, 0, 2, 4]) == [2, 2, 4] by {
      assert [2, 0, 2, 4][1..] == [0, 2, 4];
      assert [0, 2, 4][1..] == [2, 4];
      assert [2, 4][1..] == [4];
      assert [4][1..] == [];
    }
    assert [2, 2, 4][2..] == [4];
    assert [4][1..] == [];
    assert Merge([2, 2, 4]) == [4, 4];
    assert MergeGain([2, 2, 4]) == 4;
  }

  /** A merged tile does not merge again in the same move: [4,2,2] becomes [4,4,0]. */
  lemma CollapsedMergesOnce()
    ensures Collapsed([4, 2, 2]) == Collapse([4, 4, 0], 4)
  {
    assert NonZeros([4, 2, 2]) == [4, 2, 2] by {
      assert [4, 2, 2][1..] == [2, 2];
      assert [2, 2][1..] == [2];
      assert [2][1..] == [];
    }
    assert [4, 2, 2][1..] == [2, 2];
    assert [2, 2][2..] == [];
    assert Merge([4, 2, 2]) == [4, 4];
    assert MergeGain([4, 2, 2]) == 4;
  }

  // ---------------------------------------------------------------------
  // The promises of slideRow

  /** A slide reports a move exactly when its line differs from the input. */
  lemma SlidMovedIff(row: seq<int>, reverse: bool)
    ensures Slid(row, reverse).moved <==> Slid(row, reverse).line != row
  {
    DifferIff(row, Slid(row, reverse).line);
  }

  /** A slide whose line equals its input reports no move and earns nothing. */
  lemma SlidStill(row: seq<int>, reverse: bool)
    ensures !Slid(row, reverse).moved ==> Slid(row, reverse).gained == 0
  {
    SlidMovedIff(row, reverse);
    var working := if reverse then Reverse(row) else row;
    var c := Collapsed(working);
    if !Slid(row, reverse).moved {
      if reverse {
        ReverseReverse(c.line);
        assert c.line == working;
      }
      CollapsedStill(working);
    }
  }

  /** A slide that moves leaves an empty cell in its line. */
  lemma SlidLeavesGap(row: seq<int>, reverse: bool)
    ensures Slid(row, reverse).moved ==>
      exists k :: 0 <= k < |row| && Slid(row, reverse).line[k] == 0
  {
    var s := Slid(row, reverse);
    SlidMovedIff(row, reverse);
    if s.moved && reverse {
      var working := Reverse(row);
      var c := Collapsed(working);
      assert c.line != working by {
        ReverseReverse(row);
      }
      CollapsedLeavesGap(working);
      var k :| 0 <= k < |working| && c.line[k] == 0;
      ReverseKeepsGap(c.line, k);
    } else if s.moved {
      CollapsedLeavesGap(row);
    }
  }

  lemma ReverseKeepsGap(line: seq<int>, k: nat)
    requires k < |line| && line[k] == 0
    ensures Reverse(line)[|line| - 1 - k] == 0
  {
  }

  /** A full line with no equal neighbours does not move in either direction. */
  lemma SlidFixed(row: seq<int>, reverse: bool)
    requires NoZeros(row)
    requires forall i :: 0 <= i < |row| - 1 ==> row[i] != row[i + 1]
    ensures !Slid(row, reverse).moved
  {
    var s := Slid(row, reverse);
    if reverse {
      var working := Reverse(row);
      ReverseFixed(row);
      CollapsedFixed(working);
      ReverseReverse(row);
      assert s.line == row;
    } else {
      CollapsedFixed(row);
      assert s.line == row;
    }
    DifferIff(row, s.line);
  }

  /** Reversing keeps a line full and its neighbours distinct. */
  lemma ReverseFixed(row: seq<int>)
    requires NoZeros(row)
    requires forall i :: 0 <= i < |row| - 1 ==> row[i] != row[i + 1]
    ensures NoZeros(Reverse(row))
    ensures forall i :: 0 <= i < |row| - 1 ==> Reverse(row)[i] != Reverse(row)[i + 1]
  {
    var working := Reverse(row);
    forall i | 0 <= i < |working| - 1
      ensures working[i] != working[i + 1]
    {
      assert working[i] == row[|row| - 1 - i];
      assert working[i + 1] == row[|row| - 1 - i - 1];
    }
  }

  // ---------------------------------------------------------------------
  // Lines that slide in neither direction

  /** A pass that merges nothing has no equal neighbours. */
  lemma {:induction false} NoMergesDistinct(f: seq<int>)
    requires Merges(f) == 0
    ensures forall i :: 0 <= i < |f| - 1 ==> f[i] != f[i + 1]
  {
    if |f| >= 2 {
      NoMergesDistinct(f[1..]);
      forall i | 0 <= i < |f| - 1
        ensures f[i] != f[i + 1]
      {
        if i > 0 {
          assert f[i] == f[1..][i - 1] && f[i + 1] == f[1..][i];
        }
      }
    }
  }

  /** A line the collapse leaves unchanged holds its tiles first, and full it has no equal neighbours. */
  lemma CollapsedFixedShape(values: seq<int>)
    requires Collapsed(values).line == values
    ensures forall i, j :: 0 <= i < j < |values| && values[i] == 0 ==> values[j] == 0
    ensures NoZeros(values) ==> forall i :: 0 <= i < |values| - 1 ==> values[i] != values[i + 1]
  {
    var f := NonZeros(values);
    CollapsedPacked(values);
    MergeCount(f);
    NoMergesDistinct(f);
    if NoZeros(values) {
      NonZerosOfZeroFree(values);
    }
  }

  /** A line that does not slide toward its start is its own collapse. */
  lemma StillForward(row: seq<int>)
    requires !Slid(row, false).moved
    ensures Collapsed(row).line == row
  {
    SlidMovedIff(row, false);
  }

  /** A line that does not slide toward its end reversed is its own collapse. */
  lemma StillBackward(row: seq<int>)
    requires !Slid(row, true).moved
    ensures Collapsed(Reverse(row)).line == Reverse(row)
  {
    SlidMovedIff(row, true);
    ReverseReverse(Collapsed(Reverse(row)).line);
  }

  /** A line packed toward both ends with one empty cell is empty. */
  lemma PackedBothWays(row: seq<int>, k: nat)
    requires k < |row| && row[k] == 0
    requires forall i, j :: 0 <= i < j < |row| && row[i] == 0 ==> row[j] == 0
    requires forall i, j :: 0 <= i < j < |row| && Reverse(row)[i] == 0 ==> Reverse(row)[j] == 0
    ensures forall i :: 0 <= i < |row| ==> row[i] == 0
  {
    var rev := Reverse(row);
    forall i | 0 <= i < |row|
      ensures row[i] == 0
    {
      if i < k {
        assert rev[|row| - 1 - k] == 0 && rev[|row| - 1 - i] == row[i];
      }
    }
  }

  /**
   * A line that slides in neither direction is empty, or full with no two
   * equal neighbours: the converse of `SlidFixed`.
   */
  lemma StuckLineShape(row: seq<int>)
    requires !Slid(row, false).moved && !Slid(row, true).moved
    ensures || (forall i :: 0 <= i < |row| ==> row[i] == 0)
            || (NoZeros(row) && forall i :: 0 <= i < |row| - 1 ==> row[i] != row[i + 1])
  {
    StillForward(row);
    StillBackward(row);
    CollapsedFixedShape(row);
    CollapsedFixedShape(Reverse(row));
    if !NoZeros(row) {
      var k :| 0 <= k < |row| && row[k] == 0;
      PackedBothWays(row, k);
    }
  }

  /** A line with a tile has a non-empty cell. */
  lemma {:induction false} TileInLine(s: seq<int>) returns (c: nat)
    requires |NonZeros(s)| > 0
    ensures c < |s| && s[c] != 0
  {
    if s[0] != 0 {
      c := 0;
    } else {
      var k := TileInLine(s[1..]);
      c := k + 1;
    }
  }

  // ---------------------------------------------------------------------
  // Tiles are powers of two

  /** A tile value: 2, 4, 8, and so on. */
  predicate IsPowerTile(v: int)
    decreases v
  {
    v == 2 || (v > 2 && v % 2 == 0 && IsPowerTile(v / 2))
  }

  /** Every cell of the line is empty or a power-of-two tile. */
  predicate PowerLine(s: seq<int>)
  {
    forall i :: 0 <= i < |s| ==> s[i] == 0 || IsPowerTile(s[i])
  }

  /** Two equal tiles merge into a tile. */
  lemma DoubledTile(v: int)
    requires IsPowerTile(v)
    ensures IsPowerTile(2 * v) && 2 * v > v
  {
    assert (2 * v) / 2 == v;
  }

  lemma {:induction false} NonZerosKeepsPowers(s: seq<int>)
    requires PowerLine(s)
    ensures PowerLine(NonZeros(s))
  {
    if s != [] {
      NonZerosKeepsPowers(s[1..]);
    }
  }

  lemma {:induction false} MergeKeepsPowers(f: seq<int>)
    requires PowerLine(f)
    ensures PowerLine(Merge(f))
  {
    if |f| >= 2 && f[0] == f[1] {
      MergeKeepsPowers(f[2..]);
      if f[0] != 0 {
        DoubledTile(f[0]);
      }
    } else if |f| > 0 {
      MergeKeepsPowers(f[1..]);
    }
  }

  /** A slide in either direction turns a line of power-of-two tiles into one. */
  lemma SlidKeepsPowers(row: seq<int>, reverse: bool)
    requires PowerLine(row)
    ensures PowerLine(Slid(row, reverse).line)
  {
    var working := if reverse then Reverse(row) else row;
    assert PowerLine(working);
    var f := NonZeros(working);
    NonZerosKeepsPowers(working);
    MergeKeepsPowers(f);
    var line := Collapsed(working).line;
    assert PowerLine(line);
  }
}
