/**
 * What the two fetchers share: the provider's frames, the renaming of its
 * field names to the canonical schema `date, Open, High, Low, Close, Volume`,
 * and the canonical daily bar.
 */
module Provider {
  import opened Wrappers
  import opened Dates
  import opened Schema
  import opened Sorting

  /** The canonical columns, in output order. */
  const CANONICAL: seq<string> := ["date", "Open", "High", "Low", "Close", "Volume"]

  /** The provider's names for the canonical columns, in the same order. */
  const PROVIDER_FIELDS: seq<string> := ["trade_date", "open", "high", "low", "close", "vol"]

  /** `rename(columns={'trade_date': 'date', 'open': 'Open', ...})`: mapped names change, others stay. */
  function Rename(c: string): (r: string)
    ensures c in CANONICAL ==> r == c
    ensures r != c <==> c in PROVIDER_FIELDS
    ensures forall k :: 0 <= k < |PROVIDER_FIELDS| && c == PROVIDER_FIELDS[k] ==> r == CANONICAL[k]
  {
    if c == "trade_date" then "date"
    else if c == "open" then "Open"
    else if c == "high" then "High"
    else if c == "low" then "Low"
    else if c == "close" then "Close"
    else if c == "vol" then "Volume"
    else c
  }

  /** The provider field that the renaming maps onto a canonical column. */
  function ProviderName(name: string): (p: string)
    requires name in CANONICAL
    ensures Rename(p) == name && p != name
  {
    if name == "date" then "trade_date"
    else if name == "Open" then "open"
    else if name == "High" then "high"
    else if name == "Low" then "low"
    else if name == "Close" then "close"
    else "vol"
  }

  /** No two provider columns become one column under the renaming (so none repeats either). */
  predicate NoRenameClash(cols: seq<string>) {
    forall i, j :: 0 <= i < j < |cols| ==> Rename(cols[i]) != Rename(cols[j])
  }

  /** A frame as the provider sends it. */
  type ProviderFrame = f: Frame | Rectangular(f) && NoRenameClash(f.columns) witness Frame([], [])

  /** The remote endpoints: domestic daily bars (with the price-adjustment mode) and Hong Kong daily bars. */
  datatype Endpoint = Daily(code: string, adj: Option<string>) | HkDaily(code: string)

  /** One call to the provider: the frame it returns, or an exception. */
  datatype Answer = Data(frame: ProviderFrame) | Raised

  /** The provider column that holds canonical column `name` after renaming, if any. */
  function SourceOf(cols: seq<string>, name: string): Option<string>
    requires name in CANONICAL
  {
    if ProviderName(name) in cols then Some(ProviderName(name))
    else if name in cols then Some(name)
    else None
  }

  /** `SourceOf` finds exactly the provider column that the renaming turns into `name`. */
  lemma SourceOfIsRenamePreimage(cols: seq<string>, name: string, c: string)
    requires NoRenameClash(cols) && name in CANONICAL
    ensures SourceOf(cols, name) == Some(c) <==> c in cols && Rename(c) == name
  {
  }

  /** The canonical columns of `names` that no provider column renames to, in order. */
  function Missing(cols: seq<string>, names: seq<string>): (m: seq<string>)
    requires forall n <- names :: n in CANONICAL
    ensures forall n :: n in m <==> n in names && SourceOf(cols, n).None?
    ensures m == [] <==> forall n <- names :: SourceOf(cols, n).Some?
  {
    if names == [] then []
    else if SourceOf(cols, names[0]).None? then [names[0]] + Missing(cols, names[1..])
    else Missing(cols, names[1..])
  }

  /** Where each canonical column comes from. */
  datatype Sources = Sources(date: string, open: string, high: string, low: string, close: string, volume: string)

  /** `df[['date', 'Open', 'High', 'Low', 'Close', 'Volume']]` after renaming: every column found, or none. */
  function Resolve(cols: seq<string>): (r: Option<Sources>)
    ensures r.Some? <==> Missing(cols, CANONICAL) == []
    ensures r.Some? ==> r.value == Sources(SourceOf(cols, "date").value, SourceOf(cols, "Open").value,
      SourceOf(cols, "High").value, SourceOf(cols, "Low").value, SourceOf(cols, "Close").value, SourceOf(cols, "Volume").value)
  {
    if Missing(cols, CANONICAL) != [] then None
    else
      assert forall n <- CANONICAL :: SourceOf(cols, n).Some?;
      Some(Sources(SourceOf(cols, "date").value, SourceOf(cols, "Open").value, SourceOf(cols, "High").value,
                   SourceOf(cols, "Low").value, SourceOf(cols, "Close").value, SourceOf(cols, "Volume").value))
  }

  /** One row of the canonical schema. */
  datatype Bar = Bar(date: Date, open: Cell, high: Cell, low: Cell, close: Cell, volume: Cell)

  /** A fetch result: its column list and its rows. */
  datatype PriceTable = PriceTable(columns: seq<string>, bars: seq<Bar>)

  /** `pd.to_datetime` on one `trade_date` cell; the provider sends these as `YYYYMMDD` text. */
  function ParseDateCell(c: Cell): (r: Option<Date>)
    ensures r.Some? <==> c.Text? && ParseYmd(c.text).Some?
  {
    if c.Text? then ParseYmd(c.text) else None
  }

  predicate AllDatesParse(rows: seq<Row>, dateColumn: string) {
    forall i :: 0 <= i < |rows| ==> ParseDateCell(Get(rows[i], dateColumn)).Some?
  }

  /** The canonical bar of one provider row; the date is used only for rows whose date parsed. */
  function BarOf(src: Sources, row: Row): Bar {
    var d := match ParseDateCell(Get(row, src.date)) case Some(d) => d case None => FIRST_STAMP;
    Bar(d, Get(row, src.open), Get(row, src.high), Get(row, src.low), Get(row, src.close), Get(row, src.volume))
  }

  function BarMaker(src: Sources): Row -> Bar {
    row => BarOf(src, row)
  }

  /** The projection of every row onto the canonical columns. */
  function Bars(src: Sources, rows: seq<Row>): (r: seq<Bar>)
    ensures |r| == |rows| && forall i :: 0 <= i < |rows| ==> r[i] == BarOf(src, rows[i])
  {
    MapAll(BarMaker(src), rows);
    Map(BarMaker(src), rows)
  }

  /** Bar order by date (Timestamp comparison). */
  predicate DateLe(a: Bar, b: Bar) {
    NotAfter(a.date, b.date)
  }

  lemma DateLeIsTotalPreorder()
    ensures TotalPreorder(DateLe)
  {
  }
}
