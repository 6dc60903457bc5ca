/** The wallet balance trend line (components/BalanceTrendChart.tsx): the
    running-balance history replayed from a most-recent-first transaction
    list, and the normalisation of that history into polyline coordinates
    inside a 400 by 64 view box with a padding of 2. */
module BalanceTrendChart {
  import opened Wrappers
  import opened Types
  import opened Sequences

  const Width: real := 400.0
  const Height: real := 64.0
  const Padding: real := 2.0

  /** The sum of the signed amounts of a transaction list. */
  function SumAmounts(txs: seq<Transaction>): real {
    if txs == [] then 0.0 else txs[0].amount + SumAmounts(txs[1..])
  }

  /** The chart draws a line only from two points on. */
  predicate Renders(history: seq<real>) {
    |history| >= 2
  }

  /** The `balanceHistory` memo: start from `initialBalance`, then walk a
      reversed copy of the list (oldest first), adding each amount to the
      running balance and recording it. `transactions` is a value, so the
      caller's list is left as it was. */
  method BalanceHistory(transactions: seq<Transaction>, initialBalance: real)
      returns (history: seq<real>)
    ensures |history| == |transactions| + 1
    ensures history[0] == initialBalance
    ensures forall k :: 0 <= k < |transactions| ==>
      history[k + 1] == history[k] + transactions[|transactions| - 1 - k].amount
    ensures history[|transactions|] == initialBalance + SumAmounts(transactions)
    ensures Renders(history) <==> transactions != []
  {
    var n := |transactions|;
    var chronological := Reverse(transactions);
    var currentBalance := initialBalance;
    history := [initialBalance];
    var i := 0;
    while i < n
      invariant 0 <= i <= n
      invariant |history| == i + 1
      invariant history[0] == initialBalance
      invariant currentBalance == history[i]
      invariant forall k :: 0 <= k < i ==>
        history[k + 1] == history[k] + transactions[n - 1 - k].amount
      invariant currentBalance == initialBalance + SumAmounts(transactions[n - i..])
    {
      assert transactions[n - i - 1..][1..] == transactions[n - i..];
      currentBalance := currentBalance + chronological[i].amount;
      history := history + [currentBalance];
      i := i + 1;
    }
    assert transactions[0..] == transactions;
  }

  /** `Math.max(...history)`: an upper bound of the sequence (it is also one
      of its elements, `MaxOfIsElement`). */
  function MaxOf(s: seq<real>): (m: real)
    requires |s| > 0
    ensures forall k :: 0 <= k < |s| ==> s[k] <= m
  {
    if |s| == 1 then s[0]
    else
      var rest := MaxOf(s[1..]);
      assert forall k :: 1 <= k < |s| ==> s[k] == s[1..][k - 1];
      if s[0] >= rest then s[0] else rest
  }

  /** `Math.min(...history)`: a lower bound of the sequence (it is also one
      of its elements, `MinOfIsElement`). */
  function MinOf(s: seq<real>): (m: real)
    requires |s| > 0
    ensures forall k :: 0 <= k < |s| ==> m <= s[k]
  {
    if |s| == 1 then s[0]
    else
      var rest := MinOf(s[1..]);
      assert forall k :: 1 <= k < |s| ==> s[k] == s[1..][k - 1];
      if s[0] <= rest then s[0] else rest
  }

  lemma {:induction false} MaxOfIsElement(s: seq<real>)
    requires |s| > 0
    ensures MaxOf(s) in s
  {
    if |s| > 1 {
      MaxOfIsElement(s[1..]);
    }
  }

  lemma {:induction false} MinOfIsElement(s: seq<real>)
    requires |s| > 0
    ensures MinOf(s) in s
  {
    if |s| > 1 {
      MinOfIsElement(s[1..]);
    }
  }

  datatype Point = Point(x: real, y: real)

  /** The x of the `i`-th of `n` points: evenly spaced across the padded width. */
  function PointX(i: nat, n: nat): (x: real)
    requires n >= 2
    ensures i == 0 ==> x == Padding
    ensures i == n - 1 ==> x == Width - Padding
    ensures i < n ==> Padding <= x <= Width - Padding
  {
    var x := (i as real / (n - 1) as real) * (Width - Padding * 2.0) + Padding;
    if i < n then
      DivAtMostOne(i as real, (n - 1) as real);
      assert (n - 1) as real / (n - 1) as real == 1.0;
      x
    else x
  }

  /** The y of a balance: `range || 1` replaces a zero range by 1. The
      minimum balance is drawn at the bottom, `Height - Padding`, whatever
      the range; with a positive range the maximum is drawn at the top,
      `Padding`, and every balance in between stays within the padding. */
  function PointY(balance: real, minBalance: real, range: real): (y: real)
    ensures balance == minBalance ==> y == Height - Padding
    ensures range > 0.0 && balance == minBalance + range ==> y == Padding
    ensures range > 0.0 && minBalance <= balance <= minBalance + range ==> Padding <= y <= Height - Padding
  {
    var divisor := if range == 0.0 then 1.0 else range;
    var y := Height - ((balance - minBalance) / divisor) * (Height - Padding * 2.0) - Padding;
    if range > 0.0 && minBalance <= balance <= minBalance + range then
      DivAtMostOne(balance - minBalance, range);
      assert range / range == 1.0;
      y
    else y
  }

  /** The polyline's points, one per history entry. */
  function Points(history: seq<real>): (ps: seq<Point>)
    requires Renders(history)
    ensures |ps| == |history|
  {
    var minBalance := MinOf(history);
    var range := MaxOf(history) - minBalance;
    seq(|history|, i requires 0 <= i < |history| =>
      Point(PointX(i, |history|), PointY(history[i], minBalance, range)))
  }

  /** What the component draws: the polyline, and the circle that marks
      the latest balance. */
  datatype Drawing = Drawing(polyline: seq<Point>, marker: Point)

  /** What the component renders: nothing for fewer than two balances.
      Otherwise a polyline that starts at the bottom-left anchor
      `(Padding, Height)`, runs through `Points` and ends at the
      bottom-right anchor `(Width - Padding, Height)`, so the gradient fill
      closes along the bottom edge; the lemmas about `Points` describe the
      vertices between the two anchors. The marker sits one unit left of
      the last point, at its height (`lastPointY` reads that height back). */
  function Chart(history: seq<real>): (r: Option<Drawing>)
    ensures r.None? <==> !Renders(history)
    ensures r.Some? ==> Renders(history)
    ensures r.Some? ==>
      r.value.polyline == [Point(Padding, Height)] + Points(history) + [Point(Width - Padding, Height)]
    ensures r.Some? ==>
      r.value.marker == Point(Width - Padding - 1.0, Points(history)[|history| - 1].y)
  {
    if |history| < 2 then None
    else
      var ps := Points(history);
      Some(Drawing([Point(Padding, Height)] + ps + [Point(Width - Padding, Height)],
                   Point(Width - Padding - 1.0, ps[|ps| - 1].y)))
  }

  /** The drawn outline is closed along the bottom edge: it drops straight
      down from the first point to the left anchor and from the last point
      to the right anchor, both anchors lie on the bottom edge `Height`, and
      every balance is drawn strictly above that edge (at least `Padding`
      away from it). */
  lemma ChartClosesOnBaseline(history: seq<real>)
    requires Renders(history)
    ensures var p := Chart(history).value.polyline;
      && |p| == |history| + 2
      && p[0].y == Height && p[|p| - 1].y == Height
      && p[0].x == p[1].x && p[|p| - 1].x == p[|p| - 2].x
      && forall k :: 1 <= k < |p| - 1 ==> p[k].y <= Height - Padding
  {
    var p := Chart(history).value.polyline;
    var ps := Points(history);
    XSpansPaddedWidth(history);
    YWithinPaddedHeight(history);
    assert p[1] == ps[0] && p[|p| - 2] == ps[|ps| - 1];
    forall k | 1 <= k < |p| - 1
      ensures p[k].y <= Height - Padding
    {
      assert p[k] == ps[k - 1];
    }
  }

  /** The end marker sits just left of the right edge, at the latest
      balance's height, inside the padded band. */
  lemma MarkerAtLatestBalance(history: seq<real>)
    requires Renders(history)
    ensures var m := Chart(history).value.marker;
      && m.x == Width - Padding - 1.0
      && m.y == PointY(history[|history| - 1], MinOf(history), MaxOf(history) - MinOf(history))
      && Padding <= m.y <= Height - Padding
  {
    LastPointInBand(history);
  }

  /** The last point's y is the y formula at the latest balance, and lies
      in the padded band. */
  lemma LastPointInBand(history: seq<real>)
    requires Renders(history)
    ensures var y := Points(history)[|history| - 1].y;
      && y == PointY(history[|history| - 1], MinOf(history), MaxOf(history) - MinOf(history))
      && Padding <= y <= Height - Padding
  {
    PointAt(history, |history| - 1);
    YWithinPaddedHeight(history);
  }

  lemma DivStrictlyMonotone(a: real, b: real, d: real)
    requires d > 0.0 && a < b
    ensures a / d < b / d
  {
    assert (b - a) / d > 0.0;
  }

  lemma DivAtMostOne(a: real, d: real)
    requires d > 0.0 && 0.0 <= a <= d
    ensures 0.0 <= a / d <= 1.0
  {
    assert a / d * d == a;
  }

  /** The x coordinates run strictly increasing from `Padding` at the first
      point to `Width - Padding` at the last. */
  lemma XSpansPaddedWidth(history: seq<real>)
    requires Renders(history)
    ensures Points(history)[0].x == Padding
    ensures Points(history)[|history| - 1].x == Width - Padding
    ensures forall i, j :: 0 <= i < j < |history| ==> Points(history)[i].x < Points(history)[j].x
  {
    var ps := Points(history);
    var n := |history|;
    assert (n - 1) as real / (n - 1) as real == 1.0;
    forall i, j | 0 <= i < j < n
      ensures ps[i].x < ps[j].x
    {
      DivStrictlyMonotone(i as real, j as real, (n - 1) as real);
    }
  }

  /** Every y lies within the padded height. */
  lemma YWithinPaddedHeight(history: seq<real>)
    requires Renders(history)
    ensures forall i :: 0 <= i < |history| ==>
      Padding <= Points(history)[i].y <= Height - Padding
  {
    var ps := Points(history);
    var lo, hi := MinOf(history), MaxOf(history);
    forall i | 0 <= i < |history|
      ensures Padding <= ps[i].y <= Height - Padding
    {
      if hi - lo == 0.0 {
        assert history[i] - lo == 0.0;
      } else {
        DivAtMostOne(history[i] - lo, hi - lo);
      }
    }
  }

  lemma PointAt(history: seq<real>, i: nat)
    requires Renders(history) && i < |history|
    ensures Points(history)[i].y == PointY(history[i], MinOf(history), MaxOf(history) - MinOf(history))
  {
    var ps := Points(history);
    assert ps[i] == Point(PointX(i, |history|), PointY(history[i], MinOf(history), MaxOf(history) - MinOf(history)));
  }

  /** A minimum balance is drawn at the bottom, `Height - Padding`. */
  lemma MinimumAtBottom(history: seq<real>, i: nat)
    requires Renders(history) && i < |history|
    requires history[i] == MinOf(history)
    ensures Points(history)[i].y == Height - Padding
  {
    PointAt(history, i);
  }

  /** A maximum balance is drawn at the top, `Padding`, when the balances
      are not all equal. */
  lemma MaximumAtTop(history: seq<real>, i: nat)
    requires Renders(history) && i < |history|
    requires MaxOf(history) > MinOf(history)
    requires history[i] == MaxOf(history)
    ensures Points(history)[i].y == Padding
  {
    PointAt(history, i);
  }

  /** When every balance is the same, the `range || 1` guard puts every
      point on the bottom line. */
  lemma FlatHistoryLiesOnBottom(history: seq<real>)
    requires Renders(history)
    requires MaxOf(history) == MinOf(history)
    ensures forall i :: 0 <= i < |history| ==> Points(history)[i].y == Height - Padding
  {
    var lo := MinOf(history);
    forall i | 0 <= i < |history|
      ensures Points(history)[i].y == Height - Padding
    {
      assert lo <= history[i] <= MaxOf(history);
    }
  }

  /** Worked case: an initial balance of 1000 and the most-recent-first
      amounts +200 then -50 give the history 1000, 950, 1150. */
  method WorkedHistory() returns (history: seq<real>)
    ensures history == [1000.0, 950.0, 1150.0]
  {
    var older := Transaction("t2", Withdrawal, "older", "", -50.0);
    var newer := Transaction("t1", Sale, "newer", "", 200.0);
    history := BalanceHistory([newer, older], 1000.0);
    assert history[1] == 950.0 && history[2] == 1150.0;
  }
}
