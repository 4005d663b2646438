/** The table of several results: their pivots are put side by side, row by row. */
module PivotMerge {
  import opened Wrappers
  import opened Strings
  import opened Pivot

  type Pivoted = seq<PivotRow>

  /** The reduction that looks for the shortest pivot; `best` is the memo, absent at first. */
  function Shortest(pivots: seq<Pivoted>, best: Option<Pivoted>): Pivoted {
    if pivots == [] then if best.Some? then best.value else []
    else
      var keep := best.Some? && |pivots[0]| >= |best.value|;
      Shortest(pivots[1..], if keep then best else Some(pivots[0]))
  }

  function XStrings(pivots: seq<Pivoted>, index: nat): (s: seq<string>)
    ensures |s| == |pivots|
  {
    seq(|pivots|, k requires 0 <= k < |pivots| =>
      if index < |pivots[k]| then ColumnKey(pivots[k][index].xValues) else "")
  }

  /** The cells of one row of every pivot, one pivot after the other. */
  function CellsAt(pivots: seq<Pivoted>, index: nat): seq<Cell>
    requires forall p | p in pivots :: index < |p|
  {
    if pivots == [] then [] else pivots[0][index].cells + CellsAt(pivots[1..], index)
  }

  lemma {:induction false} ShortestIs(pivots: seq<Pivoted>, best: Option<Pivoted>)
    requires pivots != [] || best.Some?
    ensures var s := Shortest(pivots, best);
      && (s in pivots || best == Some(s))
      && (forall p | p in pivots :: |s| <= |p|)
      && (best.Some? ==> |s| <= |best.value|)
  {
    if pivots != [] {
      var keep := best.Some? && |pivots[0]| >= |best.value|;
      ShortestIs(pivots[1..], if keep then best else Some(pivots[0]));
    }
  }

  function MergedRow(pivots: seq<Pivoted>, joinDateRange: bool, i: nat): PivotRow
    requires i < |Shortest(pivots, None)|
  {
    MinOfAll(pivots);
    var xValues := if joinDateRange then [Text(Join(XStrings(pivots, i), ", "))] else Shortest(pivots, None)[i].xValues;
    PivotRow(xValues, CellsAt(pivots, i))
  }

  function Merge(pivots: seq<Pivoted>, joinDateRange: bool): (r: Pivoted)
    ensures |r| == |Shortest(pivots, None)|
  {
    seq(|Shortest(pivots, None)|, i requires 0 <= i < |Shortest(pivots, None)| => MergedRow(pivots, joinDateRange, i))
  }

  lemma MinOfAll(pivots: seq<Pivoted>)
    ensures forall p | p in pivots :: |Shortest(pivots, None)| <= |p|
  {
    if pivots != [] {
      ShortestIs(pivots, None);
    }
  }

  /** Where the cells of pivot k start in a merged row. */
  function Offset(pivots: seq<Pivoted>, k: nat, index: nat): nat
    requires k <= |pivots| && forall p | p in pivots :: index < |p|
  {
    if k == 0 then 0 else |pivots[0][index].cells| + Offset(pivots[1..], k - 1, index)
  }

  lemma SliceOfRest<T>(first: seq<T>, rest: seq<T>, from: nat, width: nat)
    requires from + width <= |rest|
    ensures (first + rest)[|first| + from..|first| + from + width] == rest[from..from + width]
  {
  }

  ghost predicate ReadsBack(pivots: seq<Pivoted>, cells: seq<Cell>, k: nat, index: nat)
    requires k < |pivots| && forall p | p in pivots :: index < |p|
  {
    var from, width := Offset(pivots, k, index), |pivots[k][index].cells|;
    from + width <= |cells| && cells[from..from + width] == pivots[k][index].cells
  }

  lemma {:induction false} CellsAtOffset(pivots: seq<Pivoted>, k: nat, index: nat)
    requires k < |pivots| && forall p | p in pivots :: index < |p|
    ensures ReadsBack(pivots, CellsAt(pivots, index), k, index)
  {
    if k > 0 {
      CellsAtOffset(pivots[1..], k - 1, index);
      var rest := CellsAt(pivots[1..], index);
      SliceOfRest(pivots[0][index].cells, rest, Offset(pivots[1..], k - 1, index), |pivots[k][index].cells|);
    }
  }

  lemma MergedLength(pivots: seq<Pivoted>, joinDateRange: bool)
    requires pivots != []
    ensures exists p | p in pivots :: |p| == |Merge(pivots, joinDateRange)|
    ensures forall p | p in pivots :: |Merge(pivots, joinDateRange)| <= |p|
  {
    ShortestIs(pivots, None);
    assert Shortest(pivots, None) in pivots;
  }

  /** The merged table is as long as the shortest pivot, and each pivot can be read back from it up to there. */
  lemma EachPivotCanBeReadBack(pivots: seq<Pivoted>, joinDateRange: bool, k: nat)
    requires k < |pivots|
    ensures exists p | p in pivots :: |p| == |Merge(pivots, joinDateRange)|
    ensures forall p | p in pivots :: |Merge(pivots, joinDateRange)| <= |p|
    ensures forall i | 0 <= i < |Merge(pivots, joinDateRange)| ::
              ReadsBack(pivots, Merge(pivots, joinDateRange)[i].cells, k, i)
  {
    MergedLength(pivots, joinDateRange);
    forall i | 0 <= i < |Merge(pivots, joinDateRange)|
      ensures ReadsBack(pivots, Merge(pivots, joinDateRange)[i].cells, k, i)
    {
      CellsAtOffset(pivots, k, i);
    }
  }

  lemma {:induction false} ShortestFrom(pivots: seq<Pivoted>, best: Pivoted)
    ensures var s := Shortest(pivots, Some(best));
            || (s == best && forall j | 0 <= j < |pivots| :: |best| <= |pivots[j]|)
            || (exists k :: 0 <= k < |pivots| && s == pivots[k] && |s| < |best|
                 && (forall j | 0 <= j < k :: |s| < |pivots[j]|)
                 && (forall j | k <= j < |pivots| :: |s| <= |pivots[j]|))
  {
    if pivots != [] {
      var keep := |pivots[0]| >= |best|;
      var next := if keep then best else pivots[0];
      ShortestFrom(pivots[1..], next);
      var s := Shortest(pivots[1..], Some(next));
      if k :| 0 <= k < |pivots[1..]| && s == pivots[1..][k] && |s| < |next|
              && (forall j | 0 <= j < k :: |s| < |pivots[1..][j]|)
              && (forall j | k <= j < |pivots[1..]| :: |s| <= |pivots[1..][j]|)
      {
        assert s == pivots[k + 1] && |s| < |best|;
        assert forall j | 1 <= j < k + 1 :: pivots[j] == pivots[1..][j - 1];
        assert forall j | k + 1 <= j < |pivots| :: pivots[j] == pivots[1..][j - 1];
      } else {
        assert forall j | 1 <= j < |pivots| :: pivots[j] == pivots[1..][j - 1];
        if !keep {
          assert s == pivots[0];
        }
      }
    }
  }

  /** Pivot k is the first of the shortest ones. */
  ghost predicate FirstShortest(pivots: seq<Pivoted>, k: nat) {
    && k < |pivots|
    && (forall j | 0 <= j < k :: |pivots[k]| < |pivots[j]|)
    && (forall j | k <= j < |pivots| :: |pivots[k]| <= |pivots[j]|)
  }

  /** Without joined date ranges, the x values are those of the first of the shortest pivots. */
  lemma FirstShortestNamesRows(pivots: seq<Pivoted>, k: nat, i: nat)
    requires FirstShortest(pivots, k) && i < |pivots[k]|
    ensures |Merge(pivots, false)| == |pivots[k]|
    ensures Merge(pivots, false)[i].xValues == pivots[k][i].xValues
  {
    ShortestFrom(pivots[1..], pivots[0]);
    var s := Shortest(pivots, None);
    if s != pivots[0] || exists j | 0 <= j < |pivots[1..]| :: |pivots[1..][j]| < |pivots[0]| {
      var l :| 0 <= l < |pivots[1..]| && s == pivots[1..][l] && |s| < |pivots[0]|
               && (forall j | 0 <= j < l :: |s| < |pivots[1..][j]|)
               && (forall j | l <= j < |pivots[1..]| :: |s| <= |pivots[1..][j]|);
      SameFirst(pivots, k, l + 1);
    } else {
      SameFirst(pivots, k, 0);
    }
  }

  lemma SameFirst(pivots: seq<Pivoted>, k: nat, l: nat)
    requires FirstShortest(pivots, k) && FirstShortest(pivots, l)
    ensures k == l
  {
    var a, b := |pivots[k]|, |pivots[l]|;
  }

  /** With joined date ranges, a row of two results is named by both, with a comma between. */
  lemma JoinedName(a: Pivoted, b: Pivoted, i: nat)
    requires i < |a| && i < |b|
    ensures i < |Merge([a, b], true)|
    ensures Merge([a, b], true)[i].xValues == [Text(ColumnKey(a[i].xValues) + ", " + ColumnKey(b[i].xValues))]
  {
    ShortestIs([a, b], None);
    var names := XStrings([a, b], i);
    assert names == [ColumnKey(a[i].xValues), ColumnKey(b[i].xValues)];
    assert names[1..] == [ColumnKey(b[i].xValues)];
    assert Join(names, ", ") == names[0] + ", " + Join(names[1..], ", ");
  }

  /** Row i of pivot k is still there, under its own x values. */
  ghost predicate StaysAtItsX(pivots: seq<Pivoted>, k: nat, i: nat)
    requires k < |pivots| && i < |pivots[k]|
  {
    i < |Merge(pivots, false)| && Merge(pivots, false)[i].xValues == pivots[k][i].xValues
  }

  lemma RowsBeyondAreDropped(pivots: seq<Pivoted>, k: nat, i: nat)
    requires k < |pivots| && |Merge(pivots, false)| <= i < |pivots[k]|
    ensures !StaysAtItsX(pivots, k, i)
  {
  }

  ghost predicate SameRows(p: Pivoted, q: Pivoted) {
    |p| == |q| && forall i | 0 <= i < |p| :: p[i].xValues == q[i].xValues
  }

  /** Merging drops no row and moves none to other x values if and only if all pivots list the same x values. */
  lemma NothingMovesIff(pivots: seq<Pivoted>)
    ensures (forall k, i | 0 <= k < |pivots| && 0 <= i < |pivots[k]| :: StaysAtItsX(pivots, k, i))
       <==> (forall k, l | 0 <= k < |pivots| && 0 <= l < |pivots| :: SameRows(pivots[k], pivots[l]))
  {
    if pivots != [] {
      ShortestIs(pivots, None);
      var shortest := Shortest(pivots, None);
      var s :| 0 <= s < |pivots| && pivots[s] == shortest;
      if forall k, i | 0 <= k < |pivots| && 0 <= i < |pivots[k]| :: StaysAtItsX(pivots, k, i) {
        forall k | 0 <= k < |pivots| ensures SameRows(pivots[k], shortest) {
          if |pivots[k]| > |shortest| {
            RowsBeyondAreDropped(pivots, k, |shortest|);
          }
          forall i | 0 <= i < |pivots[k]| ensures pivots[k][i].xValues == shortest[i].xValues {
            assert StaysAtItsX(pivots, k, i);
          }
        }
      }
      if forall k, l | 0 <= k < |pivots| && 0 <= l < |pivots| :: SameRows(pivots[k], pivots[l]) {
        forall k, i | 0 <= k < |pivots| && 0 <= i < |pivots[k]| ensures StaysAtItsX(pivots, k, i) {
          assert SameRows(pivots[k], pivots[s]);
        }
      }
    }
  }

  /**
   With or without joined date ranges, merging drops no row if and only if all pivots have the same
   number of rows.
   */
  lemma NothingDroppedIff(pivots: seq<Pivoted>, joinDateRange: bool)
    ensures (forall p | p in pivots :: |Merge(pivots, joinDateRange)| == |p|)
       <==> (forall p, q | p in pivots && q in pivots :: |p| == |q|)
  {
    if pivots != [] {
      ShortestIs(pivots, None);
      assert Shortest(pivots, None) in pivots;
    }
  }
}
