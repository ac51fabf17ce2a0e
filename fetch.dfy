/**
 * `fetch_stock_data` in src/data_fetch.py: classify the identifier, call the
 * endpoint of its market, and normalise the provider's frame to the canonical
 * schema: rename, parse dates, project six columns, sort by date, and drop
 * duplicate dates keeping the last row. Any exception in the body becomes a
 * `DataFetchError`; the `@retry` decorator runs the body up to three times.
 */
module Fetch {
  import opened Wrappers
  import opened Dates
  import opened Schema
  import opened Sorting
  import opened Provider
  import M = Market

  /** The exception behind a `DataFetchError` (its `__cause__`). */
  datatype Cause =
    | InvalidIdentifier                  // ValueError from identify_market
    | ProviderRaised                     // the remote call raised
    | MissingColumns(names: seq<string>) // KeyError: canonical columns absent after renaming
    | BadDate                            // to_datetime could not parse a date

  datatype FetchError = DataFetchError(cause: Cause)

  /** The call `fetch_stock_data` makes for a market (the date range is not modelled). */
  function EndpointFor(m: M.Market, code: string, adj: Option<string>): Endpoint {
    match m
    case A => Daily(code, adj)
    case HK => HkDaily(code)
  }

  // ---------------------------------------------------------------------------
  // Duplicate dates

  function DatesOf(s: seq<Bar>): set<Date> {
    set b | b in s :: b.date
  }

  predicate DistinctDates(s: seq<Bar>) {
    forall i, j :: 0 <= i < j < |s| ==> s[i].date != s[j].date
  }

  /** `df['date'].duplicated().any()`. */
  predicate HasDuplicateDates(s: seq<Bar>) {
    exists i, j :: 0 <= i < j < |s| && s[i].date == s[j].date
  }

  /** Row `i` is the last row of `s` with its date. */
  predicate LastOfDate(s: seq<Bar>, i: nat)
    requires i < |s|
  {
    forall j :: i < j < |s| ==> s[j].date != s[i].date
  }

  /** `drop_duplicates('date', keep='last')`: keep the rows no later row shares a date with, in order. */
  function KeepLast(s: seq<Bar>): (r: seq<Bar>)
    ensures |r| <= |s|
    ensures DistinctDates(r)
    ensures DatesOf(r) == DatesOf(s)
    ensures forall b <- r :: b in s
  {
    if s == [] then []
    else
      var rest := KeepLast(s[1..]);
      assert DatesOf(s) == {s[0].date} + DatesOf(s[1..]) by {
        assert s == [s[0]] + s[1..];
      }
      if s[0].date in DatesOf(s[1..]) then rest
      else
        assert forall b <- rest :: b.date != s[0].date by {
          forall b <- rest
            ensures b.date != s[0].date
          {
            assert b.date in DatesOf(rest);
          }
        }
        [s[0]] + rest
  }

  /** src/data_fetch.py:81-83: deduplicate only when some date repeats. */
  function Deduplicate(sorted: seq<Bar>): (r: seq<Bar>)
    ensures |r| <= |sorted|
    ensures DistinctDates(r)
    ensures DatesOf(r) == DatesOf(sorted)
    ensures forall b <- r :: b in sorted
  {
    if HasDuplicateDates(sorted) then KeepLast(sorted) else sorted
  }

  // ---------------------------------------------------------------------------
  // The body

  /** src/data_fetch.py:58-85: from the provider's frame to the result, or the exception raised on the way. */
  function Normalize(f: ProviderFrame): (r: Result<Option<PriceTable>, Cause>)
    ensures r.Err? ==> r.error.MissingColumns? || r.error.BadDate?
    ensures r == Err(BadDate) ==>
      !IsEmpty(f) && SourceOf(f.columns, "date").Some? && !AllDatesParse(f.rows, SourceOf(f.columns, "date").value)
    ensures r.Ok? && r.value.Some? ==> r.value.value.columns == CANONICAL && |r.value.value.bars| <= |f.rows|
  {
    if IsEmpty(f) then Ok(None)
    else match SourceOf(f.columns, "date")
      case None => Err(MissingColumns(["date"]))
      case Some(dc) =>
        if !AllDatesParse(f.rows, dc) then Err(BadDate)
        else match Resolve(f.columns)
          case None => Err(MissingColumns(Missing(f.columns, CANONICAL)))
          case Some(src) =>
            DateLeIsTotalPreorder();
            Ok(Some(PriceTable(CANONICAL, Deduplicate(SortBy(Bars(src, f.rows), DateLe)))))
  }

  /** One run of the body of `fetch_stock_data`, with the provider as `call`. */
  function FetchOnce(code: string, adj: Option<string>, call: Endpoint -> Answer): (r: Result<Option<PriceTable>, FetchError>)
    ensures r.Err? && r.error.cause.InvalidIdentifier? <==> M.IdentifyMarket(code).Err?
    ensures r.Err? && r.error.cause.ProviderRaised? <==>
      M.IdentifyMarket(code).Ok? && call(EndpointFor(M.IdentifyMarket(code).value, code, adj)).Raised?
  {
    match M.IdentifyMarket(code)
    case Err(_) => Err(DataFetchError(InvalidIdentifier))
    case Ok(m) =>
      match call(EndpointFor(m, code, adj))
      case Raised => Err(DataFetchError(ProviderRaised))
      case Data(f) =>
        match Normalize(f)
        case Ok(t) => Ok(t)
        case Err(c) => Err(DataFetchError(c))
  }

  // ---------------------------------------------------------------------------
  // Properties of deduplication

  lemma {:induction false} KeepLastSorted(s: seq<Bar>)
    requires SortedBy(s, DateLe)
    ensures SortedBy(KeepLast(s), DateLe)
  {
    if s != [] {
      KeepLastSorted(s[1..]);
      var rest := KeepLast(s[1..]);
      forall b <- rest
        ensures DateLe(s[0], b)
      {
        var k :| 0 <= k < |s[1..]| && s[1..][k] == b;
        assert s[k + 1] == b;
      }
    }
  }

  lemma {:induction false} KeepLastKeepsLast(s: seq<Bar>, i: nat)
    requires i < |s| && LastOfDate(s, i)
    ensures s[i] in KeepLast(s)
  {
    if i > 0 {
      KeepLastKeepsLast(s[1..], i - 1);
    }
  }

  lemma {:induction false} KeepLastOfDistinct(s: seq<Bar>)
    requires DistinctDates(s)
    ensures KeepLast(s) == s
  {
    if s != [] {
      KeepLastOfDistinct(s[1..]);
      assert s[0].date !in DatesOf(s[1..]) by {
        forall j | 0 <= j < |s[1..]| ensures s[1..][j].date != s[0].date {
          assert s[1..][j] == s[j + 1];
        }
      }
      assert s == [s[0]] + s[1..];
    }
  }

  lemma {:induction false} DistinctDatesCount(s: seq<Bar>)
    requires DistinctDates(s)
    ensures |DatesOf(s)| == |s|
  {
    if s != [] {
      DistinctDatesCount(s[1..]);
      assert DatesOf(s) == {s[0].date} + DatesOf(s[1..]) by {
        assert s == [s[0]] + s[1..];
      }
    }
  }

  /** Dates in increasing order, none repeated. */
  predicate StrictlyIncreasing(s: seq<Bar>) {
    forall i, j :: 0 <= i < j < |s| ==> Before(s[i].date, s[j].date)
  }

  /**
   * Whatever order `sort_values` leaves rows of equal date in, sorting then
   * dropping duplicates gives: dates strictly increasing, the same set of
   * dates, one row per date, only input rows, and for each date the row the
   * sort put last.
   */
  lemma DedupOfAnySort(bars: seq<Bar>, sorted: seq<Bar>)
    requires multiset(sorted) == multiset(bars) && SortedBy(sorted, DateLe)
    ensures var r := Deduplicate(sorted);
      && r == KeepLast(sorted)
      && StrictlyIncreasing(r)
      && DatesOf(r) == DatesOf(bars)
      && |r| == |DatesOf(bars)|
      && (forall b <- r :: b in bars)
      && (forall i :: 0 <= i < |sorted| && LastOfDate(sorted, i) ==> sorted[i] in r)
  {
    if !HasDuplicateDates(sorted) {
      KeepLastOfDistinct(sorted);
    }
    var r := KeepLast(sorted);
    KeepLastSorted(sorted);
    DistinctDatesCount(r);
    assert DatesOf(sorted) == DatesOf(bars) by {
      forall d | d in DatesOf(sorted) ensures d in DatesOf(bars) {
        var b :| b in sorted && b.date == d;
        assert b in multiset(bars);
      }
      forall d | d in DatesOf(bars) ensures d in DatesOf(sorted) {
        var b :| b in bars && b.date == d;
        assert b in multiset(sorted);
      }
    }
    forall b <- r ensures b in bars {
      assert b in multiset(sorted);
    }
    forall i | 0 <= i < |sorted| && LastOfDate(sorted, i) ensures sorted[i] in r {
      KeepLastKeepsLast(sorted, i);
    }
  }

  // ---------------------------------------------------------------------------
  // Properties of the body

  /**
   * An empty frame gives `None`; otherwise the body succeeds exactly when every
   * canonical column is present after renaming and every date parses.
   */
  lemma NormalizeOutcome(f: ProviderFrame)
    ensures Normalize(f) == Ok(None) <==> IsEmpty(f)
    ensures Normalize(f).Ok? <==>
      IsEmpty(f) || (Resolve(f.columns).Some? && AllDatesParse(f.rows, Resolve(f.columns).value.date))
    ensures Normalize(f).Err? && Normalize(f).error.MissingColumns? ==>
      var m := Normalize(f).error.names;
      m != [] && forall n <- m :: n in CANONICAL && SourceOf(f.columns, n).None?
  {
    if !IsEmpty(f) && SourceOf(f.columns, "date").Some? && Resolve(f.columns).None? {
      assert Missing(f.columns, CANONICAL) != [];
    }
  }

  /** Projecting, sorting by date and dropping duplicates gives one row per date, in date order, each projected from an input row. */
  lemma PipelineOutput(src: Sources, rows: seq<Row>)
    requires TotalPreorder(DateLe)
    ensures var input := Bars(src, rows);
      var bars := Deduplicate(SortBy(input, DateLe));
      && StrictlyIncreasing(bars)
      && DatesOf(bars) == DatesOf(input)
      && |bars| == |DatesOf(input)|
      && (forall b <- bars :: exists i :: 0 <= i < |rows| && b == BarOf(src, rows[i]))
  {
    var input := Bars(src, rows);
    var sorted := SortBy(input, DateLe);
    DedupOfAnySort(input, sorted);
    var bars := Deduplicate(sorted);
    forall b <- bars
      ensures exists i :: 0 <= i < |rows| && b == BarOf(src, rows[i])
    {
      var i :| 0 <= i < |input| && input[i] == b;
    }
  }

  /** On success the frame has the canonical columns, one row per input date, in date order, each an input row. */
  lemma NormalizeOutput(f: ProviderFrame)
    requires Normalize(f).Ok? && Normalize(f).value.Some?
    ensures Resolve(f.columns).Some?
    ensures var t := Normalize(f).value.value;
      var input := Bars(Resolve(f.columns).value, f.rows);
      && t.columns == CANONICAL
      && StrictlyIncreasing(t.bars)
      && DatesOf(t.bars) == DatesOf(input)
      && |t.bars| == |DatesOf(input)|
      && (forall b <- t.bars :: exists i :: 0 <= i < |f.rows| && b == BarOf(Resolve(f.columns).value, f.rows[i]))
  {
    DateLeIsTotalPreorder();
    var src := Resolve(f.columns).value;
    assert Normalize(f).value.value == PriceTable(CANONICAL, Deduplicate(SortBy(Bars(src, f.rows), DateLe)));
    PipelineOutput(src, f.rows);
  }

  /** An identifier that is neither pattern fails every attempt, whatever the provider does. */
  lemma InvalidIdentifierFails(code: string, adj: Option<string>, call: Endpoint -> Answer)
    requires !M.IsDomesticCode(code) && !M.IsHongKongCode(code)
    ensures FetchOnce(code, adj, call) == Err(DataFetchError(InvalidIdentifier))
  {
    M.OtherwiseInvalid(code);
  }

  /** A valid identifier is sent to the endpoint of its market, and the body depends on that call only. */
  lemma RoutesByMarket(code: string, adj: Option<string>, call: Endpoint -> Answer, other: Endpoint -> Answer)
    requires M.IsDomesticCode(code) || M.IsHongKongCode(code)
    requires M.IsDomesticCode(code) ==> call(Daily(code, adj)) == other(Daily(code, adj))
    requires M.IsHongKongCode(code) ==> call(HkDaily(code)) == other(HkDaily(code))
    ensures FetchOnce(code, adj, call) == FetchOnce(code, adj, other)
  {
    M.DomesticExactly(code);
    M.HongKongExactly(code);
  }

  /** Every failure of the body surfaces as `DataFetchError`, and its result is that of `Normalize`. */
  lemma FetchOnceOutcome(code: string, adj: Option<string>, call: Endpoint -> Answer)
    ensures FetchOnce(code, adj, call).Ok? <==>
      M.IdentifyMarket(code).Ok? &&
      var answer := call(EndpointFor(M.IdentifyMarket(code).value, code, adj));
      answer.Data? && Normalize(answer.frame).Ok?
    ensures FetchOnce(code, adj, call).Ok? ==>
      FetchOnce(code, adj, call).value == Normalize(call(EndpointFor(M.IdentifyMarket(code).value, code, adj)).frame).value
    ensures FetchOnce(code, adj, call).Err? && FetchOnce(code, adj, call).error.cause.MissingColumns? ==>
      M.IdentifyMarket(code).Ok? &&
      var answer := call(EndpointFor(M.IdentifyMarket(code).value, code, adj));
      answer.Data? && Normalize(answer.frame) == Err(FetchOnce(code, adj, call).error.cause)
  {
  }

  // ---------------------------------------------------------------------------
  // `@retry(stop=stop_after_attempt(3), ...)`

  const MAX_ATTEMPTS: nat := 3

  /** What the decorated function does: return the first successful attempt's value, or give up. */
  datatype Retried =
    | Returned(table: Option<PriceTable>, attempts: nat)
    | GaveUp(last: FetchError, attempts: nat) // tenacity's RetryError, wrapping the last failure

  /** Attempts `k`, `k + 1`, ... of a function whose attempt `j` (counting from 0) ends with `attempt(j)`. */
  function RetryFrom(attempt: nat -> Result<Option<PriceTable>, FetchError>, k: nat): (r: Retried)
    requires k < MAX_ATTEMPTS
    ensures k < r.attempts <= MAX_ATTEMPTS
    ensures r.Returned? ==> attempt(r.attempts - 1) == Ok(r.table)
    ensures r.GaveUp? ==> r.attempts == MAX_ATTEMPTS && attempt(MAX_ATTEMPTS - 1) == Err(r.last)
    decreases MAX_ATTEMPTS - k
  {
    match attempt(k)
    case Ok(t) => Returned(t, k + 1)
    case Err(e) => if k + 1 == MAX_ATTEMPTS then GaveUp(e, MAX_ATTEMPTS) else RetryFrom(attempt, k + 1)
  }

  /** The decorated `fetch_stock_data`, with `providers(j)` answering attempt `j`. */
  function FetchStockData(code: string, adj: Option<string>, providers: nat -> (Endpoint -> Answer)): (r: Retried)
    ensures 0 < r.attempts <= MAX_ATTEMPTS
    ensures r.Returned? ==> FetchOnce(code, adj, providers(r.attempts - 1)) == Ok(r.table)
    ensures r.GaveUp? ==> FetchOnce(code, adj, providers(MAX_ATTEMPTS - 1)) == Err(r.last)
  {
    RetryFrom((j: nat) => FetchOnce(code, adj, providers(j)), 0)
  }

  /**
   * At most three attempts are made; the result is the first attempt that
   * succeeds, and the decorator gives up (with the third failure) only when
   * all three fail.
   */
  lemma {:induction false} RetryOutcome(attempt: nat -> Result<Option<PriceTable>, FetchError>, k: nat)
    requires k < MAX_ATTEMPTS
    ensures var r := RetryFrom(attempt, k);
      && k < r.attempts <= MAX_ATTEMPTS
      && (forall j :: k <= j < r.attempts - 1 ==> attempt(j).Err?)
      && (r.Returned? ==> attempt(r.attempts - 1) == Ok(r.table))
      && (r.GaveUp? <==> forall j :: k <= j < MAX_ATTEMPTS ==> attempt(j).Err?)
      && (r.GaveUp? ==> r.attempts == MAX_ATTEMPTS && attempt(MAX_ATTEMPTS - 1) == Err(r.last))
    decreases MAX_ATTEMPTS - k
  {
    if attempt(k).Err? && k + 1 < MAX_ATTEMPTS {
      RetryOutcome(attempt, k + 1);
    }
  }

  /** A malformed identifier is retried too: all three attempts fail, and the decorator gives up. */
  lemma InvalidIdentifierExhaustsRetries(code: string, adj: Option<string>, providers: nat -> (Endpoint -> Answer))
    requires !M.IsDomesticCode(code) && !M.IsHongKongCode(code)
    ensures FetchStockData(code, adj, providers) == GaveUp(DataFetchError(InvalidIdentifier), MAX_ATTEMPTS)
  {
    forall k: nat ensures FetchOnce(code, adj, providers(k)) == Err(DataFetchError(InvalidIdentifier)) {
      InvalidIdentifierFails(code, adj, providers(k));
    }
  }
}
