/**
 * src/data_visualization.py without the chart: `load_data` (the checks and
 * the row filter around `read_csv`) and `calculate_moving_averages`, which
 * writes trailing 5- and 20-row means of `Close` into the caller's frame.
 */
module Visualization {
  import opened Wrappers
  import opened Dates
  import opened Schema

  // ---------------------------------------------------------------------------
  // load_data

  /**
   * What `load_data` finds at the path: no file, a file `read_csv` raised on,
   * or the frame it read with the date column already coerced (a `Stamp` for
   * each date pandas parsed, anything else for NaT).
   */
  datatype CsvSource = Absent | Unreadable | Parsed(frame: Frame)

  /** The row's date parsed (`dropna(subset=['date'])` keeps it). */
  predicate Dated(row: Row) {
    "date" in row && row["date"].Stamp?
  }

  function DropUndated(rows: seq<Row>): (r: seq<Row>)
    ensures |r| <= |rows|
  {
    if rows == [] then []
    else (if Dated(rows[0]) then [rows[0]] else []) + DropUndated(rows[1..])
  }

  /** The positions of the dated rows, in increasing order. */
  function DatedPositions(rows: seq<Row>): (p: seq<nat>)
    ensures forall k :: 0 <= k < |p| ==> p[k] < |rows|
  {
    if rows == [] then []
    else
      var rest := DatedPositions(rows[1..]);
      (if Dated(rows[0]) then [0] else []) + Shift(rest)
  }

  function Shift(p: seq<nat>): (q: seq<nat>)
    ensures |q| == |p| && forall k :: 0 <= k < |p| ==> q[k] == p[k] + 1
  {
    seq(|p|, k requires 0 <= k < |p| => p[k] + 1)
  }

  /** The same recursion as the function, with the shift named. */
  lemma PositionsUnfold(rows: seq<Row>)
    requires rows != []
    ensures DatedPositions(rows) == (if Dated(rows[0]) then [0] else []) + Shift(DatedPositions(rows[1..]))
  {
  }

  lemma {:induction false} DropUndatedAtPositions(rows: seq<Row>)
    ensures |DropUndated(rows)| == |DatedPositions(rows)|
    ensures forall k :: 0 <= k < |DatedPositions(rows)| ==> DropUndated(rows)[k] == rows[DatedPositions(rows)[k]]
  {
    if rows != [] {
      DropUndatedAtPositions(rows[1..]);
      PositionsUnfold(rows);
      var r, rest := DropUndated(rows[1..]), DatedPositions(rows[1..]);
      forall k | 0 <= k < |rest| ensures r[k] == rows[Shift(rest)[k]] {
        assert rows[1..][rest[k]] == rows[rest[k] + 1];
      }
    }
  }

  lemma {:induction false} PositionsIncrease(rows: seq<Row>)
    ensures forall k, l :: 0 <= k < l < |DatedPositions(rows)| ==> DatedPositions(rows)[k] < DatedPositions(rows)[l]
  {
    if rows != [] {
      PositionsIncrease(rows[1..]);
      PositionsUnfold(rows);
    }
  }

  lemma {:induction false} PositionsAreDated(rows: seq<Row>)
    ensures forall i :: 0 <= i < |rows| ==> (Dated(rows[i]) <==> i in DatedPositions(rows))
  {
    if rows != [] {
      PositionsAreDated(rows[1..]);
      PositionsUnfold(rows);
      var rest := DatedPositions(rows[1..]);
      var shifted := Shift(rest);
      forall i | 0 < i < |rows| ensures Dated(rows[i]) <==> i in shifted {
        assert rows[i] == rows[1..][i - 1];
        if i - 1 in rest {
          var k :| 0 <= k < |rest| && rest[k] == i - 1;
          assert shifted[k] == i;
        }
      }
    }
  }

  /**
   * `dropna` keeps exactly the dated rows and keeps them in their original
   * relative order: the result is the rows at the dated positions, in
   * increasing order.
   */
  lemma DropUndatedSelects(rows: seq<Row>)
    ensures var r, p := DropUndated(rows), DatedPositions(rows);
      && |r| == |p|
      && (forall k :: 0 <= k < |p| ==> r[k] == rows[p[k]])
      && (forall k, l :: 0 <= k < l < |p| ==> p[k] < p[l])
      && (forall i :: 0 <= i < |rows| ==> (Dated(rows[i]) <==> i in p))
  {
    DropUndatedAtPositions(rows);
    PositionsIncrease(rows);
    PositionsAreDated(rows);
  }

  /**
   * `load_data`: never raises. No file, a failed read, or a missing `date` or
   * `Close` column gives an empty frame; otherwise the columns stay and the
   * undated rows are dropped.
   */
  function LoadData(src: CsvSource): (r: Frame)
    ensures forall row <- r.rows :: Dated(row)
    ensures src.Parsed? ==> forall row <- r.rows :: row in src.frame.rows
    ensures src.Parsed? && WellFormed(src.frame) ==> WellFormed(r)
  {
    match src
    case Absent => EMPTY
    case Unreadable => EMPTY
    case Parsed(f) =>
      if "date" !in f.columns || "Close" !in f.columns then EMPTY
      else
        DropUndatedSelects(f.rows);
        Frame(f.columns, DropUndated(f.rows))
  }

  lemma LoadDataOutcome(src: CsvSource)
    ensures src.Absent? || src.Unreadable? ==> LoadData(src) == EMPTY
    ensures src.Parsed? ==>
      var f := src.frame;
      && (("date" !in f.columns || "Close" !in f.columns) ==> LoadData(src) == EMPTY)
      && (("date" in f.columns && "Close" in f.columns) ==>
            LoadData(src).columns == f.columns &&
            |LoadData(src).rows| == |DatedPositions(f.rows)| &&
            forall k :: 0 <= k < |LoadData(src).rows| ==> LoadData(src).rows[k] == f.rows[DatedPositions(f.rows)[k]])
  {
    if src.Parsed? {
      DropUndatedSelects(src.frame.rows);
    }
  }

  // ---------------------------------------------------------------------------
  // Trailing means

  /** A `Close` value: a number, or `None` for NaN. */
  type Price = Option<real>

  function ValueOr0(x: Price): real {
    if x.Some? then x.value else 0.0
  }

  /** Sum of the present values (what pandas' running `sum_x` holds). */
  function PresentSum(s: seq<Price>): real {
    if s == [] then 0.0 else PresentSum(s[..|s| - 1]) + ValueOr0(s[|s| - 1])
  }

  /** Number of present values (pandas' running `nobs`). */
  function PresentCount(s: seq<Price>): nat {
    if s == [] then 0 else PresentCount(s[..|s| - 1]) + (if s[|s| - 1].Some? then 1 else 0)
  }

  predicate AllPresent(s: seq<Price>) {
    forall i :: 0 <= i < |s| ==> s[i].Some?
  }

  /**
   * `Close.rolling(window=w).mean()` at row `i`: the mean of rows `i-w+1..i`,
   * undefined (NaN) for the first `w-1` rows and for a window with a NaN.
   */
  function TrailingMean(xs: seq<Price>, i: nat, w: nat): (r: Price)
    requires i < |xs| && w > 0
    ensures r.Some? <==> w <= i + 1 && forall k :: i + 1 - w <= k <= i ==> xs[k].Some?
    ensures r.Some? ==> (w as real) * r.value == PresentSum(xs[i + 1 - w..i + 1])
  {
    if i + 1 < w then None
    else
      var window := xs[i + 1 - w..i + 1];
      if AllPresent(window) then Some(PresentSum(window) / (w as real)) else None
  }

  lemma {:induction false} PresentCountAll(s: seq<Price>)
    ensures PresentCount(s) <= |s|
    ensures PresentCount(s) == |s| <==> AllPresent(s)
  {
    if s != [] {
      var init := s[..|s| - 1];
      PresentCountAll(init);
      if AllPresent(s) {
        assert AllPresent(init) by {
          forall i | 0 <= i < |init| ensures init[i].Some? {
            assert init[i] == s[i];
          }
        }
      }
      if PresentCount(s) == |s| {
        forall i | 0 <= i < |s| ensures s[i].Some? {
          if i < |s| - 1 {
            assert init[i] == s[i];
          }
        }
      }
    }
  }

  /** Dropping a window's first row takes its value out of the running sum and count. */
  lemma {:induction false} DropFirst(s: seq<Price>)
    requires s != []
    ensures PresentSum(s) == ValueOr0(s[0]) + PresentSum(s[1..])
    ensures PresentCount(s) == (if s[0].Some? then 1 else 0) + PresentCount(s[1..])
  {
    if |s| > 1 {
      var init := s[..|s| - 1];
      DropFirst(init);
      assert init[1..] == s[1..][..|s[1..]| - 1];
      assert init[0] == s[0];
    } else {
      assert s[1..] == [];
      assert s[..0] == [];
    }
  }

  lemma AppendLast(xs: seq<Price>, lo: nat, i: nat)
    requires lo <= i < |xs|
    ensures PresentSum(xs[lo..i + 1]) == PresentSum(xs[lo..i]) + ValueOr0(xs[i])
    ensures PresentCount(xs[lo..i + 1]) == PresentCount(xs[lo..i]) + (if xs[i].Some? then 1 else 0)
  {
    assert xs[lo..i + 1][..i - lo] == xs[lo..i];
  }

  /** Where the running window of the loop starts before row `i` is added. */
  function WindowStart(i: nat, w: nat): nat {
    if i >= w then i - w else 0
  }

  /** The rows the loop's running sum and count cover before row `i` is added. */
  function Window(xs: seq<Price>, i: nat, w: nat): seq<Price>
    requires i <= |xs|
  {
    xs[WindowStart(i, w)..i]
  }

  /** One step of the loop: the row leaving the window is taken out, row `i` is put in. */
  lemma WindowAdvance(xs: seq<Price>, i: nat, w: nat)
    requires i < |xs| && w > 0
    ensures PresentSum(Window(xs, i + 1, w))
            == PresentSum(Window(xs, i, w)) - (if i >= w then ValueOr0(xs[i - w]) else 0.0) + ValueOr0(xs[i])
    ensures PresentCount(Window(xs, i + 1, w)) + (if i >= w && xs[i - w].Some? then 1 else 0)
            == PresentCount(Window(xs, i, w)) + (if xs[i].Some? then 1 else 0)
  {
    var lo := WindowStart(i + 1, w);
    AppendLast(xs, lo, i);
    if i >= w {
      DropFirst(xs[i - w..i]);
      assert xs[i - w..i][1..] == xs[lo..i];
    }
  }

  /** The loop's result for row `i`: defined once the window holds `w` present values, and then the trailing mean. */
  lemma WindowResult(xs: seq<Price>, i: nat, w: nat)
    requires i < |xs| && w > 0
    ensures var win := Window(xs, i + 1, w);
      (if PresentCount(win) >= w then Some(PresentSum(win) / (PresentCount(win) as real)) else None)
      == TrailingMean(xs, i, w)
  {
    var win := Window(xs, i + 1, w);
    PresentCountAll(win);
    if i + 1 >= w {
      assert win == xs[i + 1 - w..i + 1];
    }
  }

  /**
   * `rolling(window=w).mean()` as pandas computes it: one pass that takes the
   * row leaving the window out of a running sum and count of non-NaN values,
   * adds the row entering it, and gives the mean once the count reaches `w`.
   */
  method RollingMean(xs: seq<Price>, w: nat) returns (out: array<Price>)
    requires w > 0
    ensures out.Length == |xs|
    ensures forall i :: 0 <= i < |xs| ==> out[i] == TrailingMean(xs, i, w)
  {
    out := new Price[|xs|](_ => None);
    var sum: real := 0.0;
    var nobs: nat := 0;
    var i := 0;
    while i < |xs|
      invariant 0 <= i <= |xs| && out.Length == |xs|
      invariant sum == PresentSum(Window(xs, i, w))
      invariant nobs == PresentCount(Window(xs, i, w))
      invariant forall k :: 0 <= k < i ==> out[k] == TrailingMean(xs, k, w)
    {
      WindowAdvance(xs, i, w);
      WindowResult(xs, i, w);
      if i >= w && xs[i - w].Some? {
        sum := sum - xs[i - w].value;
        nobs := nobs - 1;
      }
      if xs[i].Some? {
        sum := sum + xs[i].value;
        nobs := nobs + 1;
      }
      ghost var win := Window(xs, i + 1, w);
      assert sum == PresentSum(win) && nobs == PresentCount(win);
      out[i] := if nobs >= w then Some(sum / (nobs as real)) else None;
      i := i + 1;
    }
  }

  /** The 5- and 20-row means at a row and the next differ by the entering and leaving closes over `w`. */
  lemma SlidingUpdate(xs: seq<Price>, i: nat, w: nat)
    requires w > 0 && w <= i + 1 && i + 1 < |xs|
    requires TrailingMean(xs, i, w).Some? && TrailingMean(xs, i + 1, w).Some?
    ensures TrailingMean(xs, i + 1, w).value - TrailingMean(xs, i, w).value
            == (xs[i + 1].value - xs[i + 1 - w].value) / (w as real)
  {
    var prev, next := xs[i + 1 - w..i + 1], xs[i + 2 - w..i + 2];
    DropFirst(prev);
    assert prev[1..] == xs[i + 2 - w..i + 1];
    AppendLast(xs, i + 2 - w, i + 1);
    assert prev[0] == xs[i + 1 - w];
  }

  /** A mean lies between the smallest and largest close of its window. */
  lemma MeanWithinWindow(xs: seq<Price>, i: nat, w: nat, low: real, high: real)
    requires i < |xs| && w > 0 && TrailingMean(xs, i, w).Some?
    requires forall k :: i + 1 - w <= k <= i ==> low <= ValueOr0(xs[k]) <= high
    ensures low <= TrailingMean(xs, i, w).value <= high
  {
    var window := xs[i + 1 - w..i + 1];
    SumBounds(window, low, high);
  }

  lemma {:induction false} SumBounds(s: seq<Price>, low: real, high: real)
    requires forall k :: 0 <= k < |s| ==> low <= ValueOr0(s[k]) <= high
    ensures low * (|s| as real) <= PresentSum(s) <= high * (|s| as real)
  {
    if s != [] {
      var init := s[..|s| - 1];
      assert forall k :: 0 <= k < |init| ==> init[k] == s[k];
      SumBounds(init, low, high);
    }
  }

  lemma TrailingMeanExamples()
    ensures var closes := [Some(10.0), Some(20.0), Some(30.0), Some(40.0), Some(50.0)];
      && TrailingMean(closes, 4, 5) == Some(30.0)
      && (forall i :: 0 <= i < 4 ==> TrailingMean(closes, i, 5).None?)
      && (forall i :: 0 <= i < 5 ==> TrailingMean(closes, i, 20).None?)
  {
    var closes := [Some(10.0), Some(20.0), Some(30.0), Some(40.0), Some(50.0)];
    assert closes[0..5] == closes;
    assert PresentSum(closes[..1]) == 10.0;
    assert PresentSum(closes[..2]) == 30.0 by { assert closes[..2][..1] == closes[..1]; }
    assert PresentSum(closes[..3]) == 60.0 by { assert closes[..3][..2] == closes[..2]; }
    assert PresentSum(closes[..4]) == 100.0 by { assert closes[..4][..3] == closes[..3]; }
    assert PresentSum(closes) == 150.0 by { assert closes[..5][..4] == closes[..4]; }
  }

  // ---------------------------------------------------------------------------
  // calculate_moving_averages

  /** `df['Close']` as prices: `None` when the column is missing or holds a value `rolling` cannot average. */
  function CloseColumn(f: Frame): (r: Option<seq<Price>>)
    ensures r.Some? ==> |r.value| == |f.rows|
    ensures r.Some? <==>
      "Close" in f.columns && forall i :: 0 <= i < |f.rows| ==> Get(f.rows[i], "Close").Num? || Get(f.rows[i], "Close").Null?
    ensures r.Some? ==> forall i :: 0 <= i < |f.rows| ==>
      r.value[i] == if Get(f.rows[i], "Close").Num? then Some(Get(f.rows[i], "Close").value) else None
  {
    if "Close" !in f.columns then None else ClosePrices(f.rows)
  }

  function ClosePrices(rows: seq<Row>): (r: Option<seq<Price>>)
    ensures r.Some? ==> |r.value| == |rows|
    ensures r.Some? <==> forall i :: 0 <= i < |rows| ==> Get(rows[i], "Close").Num? || Get(rows[i], "Close").Null?
    ensures r.Some? ==> forall i :: 0 <= i < |rows| ==>
      r.value[i] == if Get(rows[i], "Close").Num? then Some(Get(rows[i], "Close").value) else None
  {
    if rows == [] then Some([])
    else
      var first := match Get(rows[0], "Close")
        case Num(x) => Some(Some(x))
        case Null => Some(None)
        case _ => None;
      match (first, ClosePrices(rows[1..]))
      case (Some(p), Some(rest)) => Some([p] + rest)
      case _ => None
  }

  function WithColumn(columns: seq<string>, name: string): seq<string> {
    if name in columns then columns else columns + [name]
  }

  function AsCell(p: Price): Cell {
    match p
    case Some(x) => Num(x)
    case None => Null
  }

  /** The trailing `w`-row mean at every row. */
  function Means(closes: seq<Price>, w: nat): (m: seq<Price>)
    requires w > 0
  {
    seq(|closes|, i requires 0 <= i < |closes| => TrailingMean(closes, i, w))
  }

  /** The frame with `MA5` and `MA20` columns holding the given values, row by row. */
  function AddAverages(f: Frame, ma5: seq<Price>, ma20: seq<Price>): (g: Frame)
    requires |ma5| == |f.rows| && |ma20| == |f.rows|
    ensures |g.rows| == |f.rows|
    ensures forall i :: 0 <= i < |f.rows| ==>
      && g.rows[i].Keys == f.rows[i].Keys + {"MA5", "MA20"}
      && g.rows[i]["MA5"] == AsCell(ma5[i]) && g.rows[i]["MA20"] == AsCell(ma20[i])
    ensures forall i, c :: 0 <= i < |f.rows| && c in f.rows[i] && c != "MA5" && c != "MA20" ==> g.rows[i][c] == f.rows[i][c]
  {
    Frame(WithColumn(WithColumn(f.columns, "MA5"), "MA20"),
          seq(|f.rows|, i requires 0 <= i < |f.rows| => f.rows[i]["MA5" := AsCell(ma5[i])]["MA20" := AsCell(ma20[i])]))
  }

  /** The frame after `df['MA5'] = ...` and `df['MA20'] = ...`. */
  function WithMovingAverages(f: Frame, closes: seq<Price>): (g: Frame)
    requires |closes| == |f.rows|
    ensures |g.rows| == |f.rows|
    ensures forall i :: 0 <= i < |f.rows| ==>
      && "MA5" in g.rows[i] && "MA20" in g.rows[i]
      && g.rows[i]["MA5"] == AsCell(TrailingMean(closes, i, 5)) && g.rows[i]["MA20"] == AsCell(TrailingMean(closes, i, 20))
  {
    AddAverages(f, Means(closes, 5), Means(closes, 20))
  }

  /** Adding a column keeps the names distinct, keeps the existing ones in place, and adds exactly that name. */
  lemma WithColumnKeeps(columns: seq<string>, name: string)
    requires Distinct(columns)
    ensures var r := WithColumn(columns, name);
      && Distinct(r)
      && r[..|columns|] == columns
      && (set c | c in r) == (set c | c in columns) + {name}
  {
  }

  /** A row of a well-formed frame with both averages written holds exactly the new column list. */
  lemma RowWithAverages(row: Row, columns: seq<string>, a: Cell, b: Cell)
    requires Distinct(columns) && row.Keys == set c | c in columns
    ensures row["MA5" := a]["MA20" := b].Keys == set c | c in WithColumn(WithColumn(columns, "MA5"), "MA20")
  {
    WithColumnKeeps(columns, "MA5");
    WithColumnKeeps(WithColumn(columns, "MA5"), "MA20");
  }

  /** The frame with the averages added is well formed and keeps the row count and the existing columns in place. */
  lemma AveragesShape(f: Frame, ma5: seq<Price>, ma20: seq<Price>)
    requires WellFormed(f) && |ma5| == |f.rows| && |ma20| == |f.rows|
    ensures var g := AddAverages(f, ma5, ma20);
      && WellFormed(g)
      && |g.rows| == |f.rows|
      && g.columns[..|f.columns|] == f.columns
      && (set c | c in g.columns) == (set c | c in f.columns) + {"MA5", "MA20"}
  {
    var with5 := WithColumn(f.columns, "MA5");
    WithColumnKeeps(f.columns, "MA5");
    WithColumnKeeps(with5, "MA20");
    var g := AddAverages(f, ma5, ma20);
    assert g.columns[..|with5|][..|f.columns|] == g.columns[..|f.columns|];
    forall i | 0 <= i < |g.rows| ensures g.rows[i].Keys == set c | c in g.columns {
      RowWithAverages(f.rows[i], f.columns, AsCell(ma5[i]), AsCell(ma20[i]));
    }
  }

  /**
   * Adding the averages keeps the frame well formed, keeps the row count,
   * keeps every existing column in its place with its cells, and puts the
   * trailing means in `MA5` and `MA20`.
   */
  lemma MovingAveragesKeepFrame(f: Frame, closes: seq<Price>)
    requires WellFormed(f) && |closes| == |f.rows|
    ensures var g := WithMovingAverages(f, closes);
      && WellFormed(g)
      && |g.rows| == |f.rows|
      && g.columns[..|f.columns|] == f.columns
      && (set c | c in g.columns) == (set c | c in f.columns) + {"MA5", "MA20"}
      && (forall i, c :: 0 <= i < |f.rows| && c in f.rows[i] && c != "MA5" && c != "MA20" ==> g.rows[i][c] == f.rows[i][c])
      && (forall i :: 0 <= i < |f.rows| ==>
            g.rows[i]["MA5"] == AsCell(TrailingMean(closes, i, 5)) && g.rows[i]["MA20"] == AsCell(TrailingMean(closes, i, 20)))
  {
    var ma5, ma20 := Means(closes, 5), Means(closes, 20);
    AveragesShape(f, ma5, ma20);
  }

  /** A data frame the caller holds; `calculate_moving_averages` adds columns to it in place. */
  class PriceFrame {
    var columns: seq<string>
    var rows: seq<Row>

    ghost predicate Valid()
      reads this
    {
      WellFormed(Frame(columns, rows))
    }

    function Contents(): Frame
      reads this
    {
      Frame(columns, rows)
    }

    constructor (f: Frame)
      requires WellFormed(f)
      ensures Valid() && Contents() == f
    {
      columns := f.columns;
      rows := f.rows;
    }

    /**
     * `calculate_moving_averages(df)`: writes `MA5` and `MA20` into this
     * frame, which the Python returns. When `Close` is missing or not numeric,
     * pandas raises before anything is written.
     */
    method CalculateMovingAverages() returns (ok: bool)
      requires Valid()
      modifies this
      ensures Valid()
      ensures ok <==> CloseColumn(old(Contents())).Some?
      ensures !ok ==> Contents() == old(Contents())
      ensures ok ==> Contents() == WithMovingAverages(old(Contents()), CloseColumn(old(Contents())).value)
    {
      var closes := CloseColumn(Contents());
      if closes.None? {
        return false;
      }
      var ma5 := RollingMean(closes.value, 5);
      var ma20 := RollingMean(closes.value, 20);
      var m5, m20 := ma5[..], ma20[..];
      assert m5 == Means(closes.value, 5);
      assert m20 == Means(closes.value, 20);
      var before := Contents();
      AveragesShape(before, m5, m20);
      var after := AddAverages(before, m5, m20);
      columns, rows := after.columns, after.rows;
      ok := true;
    }
  }
}
