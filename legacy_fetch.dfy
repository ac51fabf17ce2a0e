/**
 * `fetch_stock_data` in data_fatch.py, the older fetcher: one call to the
 * domestic daily endpoint, then sort by the raw `trade_date` text, parse it
 * with `%Y%m%d`, rename, and keep the six canonical columns. Duplicates are
 * kept, and every exception turns into `None`.
 */
module LegacyFetch {
  import opened Wrappers
  import opened Dates
  import opened Schema
  import opened Sorting
  import opened Provider

  function TextOf(c: Cell): string {
    if c.Text? then c.text else ""
  }

  /** `sort_values('trade_date')` on the provider's text: Python string order. */
  predicate TradeDateLe(a: Row, b: Row) {
    LexLe(TextOf(Get(a, "trade_date")), TextOf(Get(b, "trade_date")))
  }

  lemma TradeDateLeIsTotalPreorder()
    ensures TotalPreorder(TradeDateLe)
  {
    forall a: Row, b: Row ensures TradeDateLe(a, b) || TradeDateLe(b, a) {
      LexLessTrichotomy(TextOf(Get(a, "trade_date")), TextOf(Get(b, "trade_date")));
    }
    forall a: Row, b: Row, c: Row | TradeDateLe(a, b) && TradeDateLe(b, c) ensures TradeDateLe(a, c) {
      var x, y, z := TextOf(Get(a, "trade_date")), TextOf(Get(b, "trade_date")), TextOf(Get(c, "trade_date"));
      if x != y && y != z {
        LexLessTransitive(x, y, z);
      }
    }
  }

  /** When the function returns `None`: the call raised, the frame was empty, or a step of the body raised. */
  predicate Fails(answer: Answer)
    ensures !Fails(answer) ==>
      && answer.Data? && !IsEmpty(answer.frame)
      && Resolve(answer.frame.columns).Some? && Resolve(answer.frame.columns).value.date == "trade_date"
  {
    || answer.Raised?
    || IsEmpty(answer.frame)
    || "trade_date" !in answer.frame.columns            // KeyError in sort_values
    || !AllDatesParse(answer.frame.rows, "trade_date")   // to_datetime(..., format='%Y%m%d') raises
    || Resolve(answer.frame.columns).None?               // KeyError in the projection
  }

  /**
   * data_fatch.py:17-38 after the provider call. Sorting by raw text puts the rows in
   * date order, because for `YYYYMMDD` text string order is date order; no row
   * is dropped or merged.
   */
  method FetchStockData(answer: Answer) returns (r: Option<PriceTable>)
    ensures r.None? <==> Fails(answer)
    ensures r.Some? ==>
      var f := answer.frame;
      var src := Resolve(f.columns).value;
      && r.value.columns == CANONICAL
      && |r.value.bars| == |f.rows|
      && SortedBy(r.value.bars, DateLe)
      && multiset(r.value.bars) == multiset(Bars(src, f.rows))
  {
    if answer.Raised? {
      return None;
    }
    var df: Frame := answer.frame;
    if IsEmpty(df) {
      return None;
    }
    if "trade_date" !in df.columns {
      return None;
    }
    TradeDateLeIsTotalPreorder();
    df := df.(rows := SortBy(df.rows, TradeDateLe));
    assert AllDatesParse(df.rows, "trade_date") <==> AllDatesParse(answer.frame.rows, "trade_date") by {
      SameRowsSameParse(df.rows, answer.frame.rows);
    }
    if !AllDatesParse(df.rows, "trade_date") {
      return None;
    }
    var src := Resolve(df.columns);
    if src.None? {
      return None;
    }
    assert src.value.date == "trade_date";
    var bars := Bars(src.value, df.rows);
    TextOrderIsDateOrder(src.value, df.rows);
    MapPermutation(BarMaker(src.value), df.rows, answer.frame.rows);
    r := Some(PriceTable(CANONICAL, bars));
  }

  /** Rows sorted by their `trade_date` text, all of which parses, project to bars sorted by date. */
  lemma TextOrderIsDateOrder(src: Sources, rows: seq<Row>)
    requires src.date == "trade_date"
    requires SortedBy(rows, TradeDateLe) && AllDatesParse(rows, "trade_date")
    ensures SortedBy(Bars(src, rows), DateLe)
  {
    var bars := Bars(src, rows);
    forall i, j | 0 <= i < j < |bars| ensures DateLe(bars[i], bars[j]) {
      var s, t := Get(rows[i], "trade_date").text, Get(rows[j], "trade_date").text;
      assert TradeDateLe(rows[i], rows[j]);
      LexOrderIsChronological(s, t);
    }
  }

  lemma SameRowsSameParse(s: seq<Row>, t: seq<Row>)
    requires multiset(s) == multiset(t)
    ensures AllDatesParse(s, "trade_date") <==> AllDatesParse(t, "trade_date")
  {
    forall i | 0 <= i < |s| ensures s[i] in t {
      assert s[i] in multiset(t);
    }
    forall i | 0 <= i < |t| ensures t[i] in s {
      assert t[i] in multiset(s);
    }
  }
}
