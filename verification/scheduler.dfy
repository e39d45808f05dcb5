/** The bookkeeping of the progressive precomputation (reset_calculation and
    the cursor update of step_calculation in main.cpp): which row comes next,
    whether a pass is running, and whether the distortion map is complete.
    The app's class keeps these three values in fields and is specified by
    the functions below. */
module Scheduler {
  import opened CMath
  import opened RayMarch

  /** Rows computed by one call of step_calculation. */
  const RowsPerStep: int := 5

  /** calc_row, is_calculating and distortion_map_ready. */
  datatype CalcState = CalcState(calcRow: int, isCalculating: bool, mapReady: bool)
  {
    /** The cursor is inside the picture, the two flags are never both set, a
        running pass still has rows to do, and a ready map is complete. */
    predicate Consistent()
    {
      && 0 <= calcRow <= ImageHeight
      && !(isCalculating && mapReady)
      && (isCalculating ==> calcRow < ImageHeight)
      && (mapReady ==> calcRow == ImageHeight)
    }
  }

  /** The state before the first frame: nothing computed, nothing running. */
  function Initial(): CalcState { CalcState(0, false, false) }

  /** reset_calculation: start a new pass from the top row. */
  function Restarted(): CalcState { CalcState(0, true, false) }

  /** The cursor after one call: five rows further, but not past the bottom. */
  function EndRow(calcRow: int): (r: int)
    ensures r <= ImageHeight && r <= calcRow + RowsPerStep
    ensures r == ImageHeight || r == calcRow + RowsPerStep
  {
    Min(calcRow + RowsPerStep, ImageHeight)
  }

  /** The bookkeeping of step_calculation: nothing when no pass is running;
      otherwise the cursor moves to EndRow, and when it reaches the bottom the
      pass stops and the map becomes ready. */
  function Advanced(s: CalcState): (r: CalcState)
    ensures !s.isCalculating ==> r == s
    ensures s.Consistent() ==> r.Consistent()
    ensures s.isCalculating && s.Consistent() ==>
              s.calcRow < r.calcRow <= s.calcRow + RowsPerStep
    ensures r.mapReady && !s.mapReady ==> r.calcRow == ImageHeight && !r.isCalculating
  {
    if !s.isCalculating then s
    else
      var endRow := EndRow(s.calcRow);
      if endRow >= ImageHeight then CalcState(endRow, false, true)
      else CalcState(endRow, true, s.mapReady)
  }

  /** The progress shown while calculating: calc_row / image_height * 100. */
  function Progress(s: CalcState): real
  {
    (s.calcRow as real) / (ImageHeight as real) * 100.0
  }

  /** The progress of a consistent state is a percentage. */
  lemma ProgressBounds(s: CalcState)
    requires s.Consistent()
    ensures 0.0 <= Progress(s) <= 100.0
    ensures Progress(s) == 100.0 <==> s.calcRow == ImageHeight
  {
    var f := (s.calcRow as real) / (ImageHeight as real);
    assert 0.0 <= f <= 1.0;
    assert f == 1.0 <==> s.calcRow == ImageHeight;
  }

  /** k calls of step_calculation from s. */
  function Iterate(s: CalcState, k: nat): CalcState
    decreases k
  {
    if k == 0 then s else Iterate(Advanced(s), k - 1)
  }

  /** A running pass with rows rows to go is still running after k calls when
      5 k < rows (k * 5 rows further down), and has finished, with the map
      ready, as soon as 5 k >= rows. */
  lemma {:induction false} FinishesAfter(s: CalcState, k: nat)
    requires s.Consistent() && s.isCalculating
    ensures RowsPerStep * k < ImageHeight - s.calcRow ==>
              Iterate(s, k) == CalcState(s.calcRow + RowsPerStep * k, true, s.mapReady)
    ensures RowsPerStep * k >= ImageHeight - s.calcRow ==>
              Iterate(s, k) == CalcState(ImageHeight, false, true)
    decreases k
  {
    if k != 0 {
      var next := Advanced(s);
      if next.isCalculating {
        FinishesAfter(next, k - 1);
      } else {
        IdleStays(next, k - 1);
      }
    }
  }

  /** Once no pass is running, further calls change nothing. */
  lemma {:induction false} IdleStays(s: CalcState, k: nat)
    requires !s.isCalculating
    ensures Iterate(s, k) == s
    decreases k
  {
    if k != 0 {
      IdleStays(Advanced(s), k - 1);
    }
  }

  /** After a reset exactly 60 = ceil(300 / 5) calls complete the map: every
      earlier state is still calculating, and the 60th leaves the cursor at
      the bottom, the pass stopped and the map ready. */
  lemma SixtyCallsAfterReset()
    ensures Iterate(Restarted(), 60) == CalcState(ImageHeight, false, true)
    ensures forall k: nat :: k < 60 ==> Iterate(Restarted(), k).isCalculating
  {
    FinishesAfter(Restarted(), 60);
    forall k: nat | k < 60
      ensures Iterate(Restarted(), k).isCalculating
    {
      FinishesAfter(Restarted(), k);
    }
  }
}
