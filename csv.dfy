/**
 * The rows of the two report files (src/utils/csv.ts): the totals file has
 * one row per report line, the detail file one row per record behind a line
 * (or a single zero row when a line has none), sorted by token, then
 * address/name, then network.
 *
 * `localeCompare` is an abstract strict total order `lt` on strings.
 */
module CsvExport {
  import opened Common
  import opened Types
  import opened Sorting
  import Price
  import Aggregator

  /** A row of the totals file; the blank columns are left out. */
  datatype TotalRow = TotalRow(symbol: string, caption: string, amount: real, rate: real)

  /** A row of the detail file. */
  datatype DetailRow = DetailRow(
    symbol: string,
    sourceType: SourceType,
    sourceName: string,
    chain: string,
    amount: real,
    price: real,
    value: real)

  /** The fixed text of the totals file's caption column ("holdings"). */
  const HoldingLabel: string := "保有量"

  // ---------------------------------------------------------------------------
  // Totals file
  // ---------------------------------------------------------------------------

  function TotalRowOf(d: AggregatedBalance): TotalRow {
    TotalRow(d.symbol, HoldingLabel, d.totalAmount, d.priceJpy)
  }

  /** `data.map(...)` of `exportTotal`. */
  function TotalRows(data: seq<AggregatedBalance>): seq<TotalRow> {
    seq(|data|, i requires 0 <= i < |data| => TotalRowOf(data[i]))
  }

  /** One row per report line, in report order, carrying its total and its rate. */
  lemma TotalRowsSpec(data: seq<AggregatedBalance>)
    ensures var r := TotalRows(data);
      && |r| == |data|
      && forall i :: 0 <= i < |data| ==>
           && r[i].symbol == data[i].symbol
           && r[i].caption == HoldingLabel
           && r[i].amount == data[i].totalAmount
           && r[i].rate == data[i].priceJpy
  {
  }

  // ---------------------------------------------------------------------------
  // Detail file
  // ---------------------------------------------------------------------------

  /** `det.chain || ''`: an absent or empty network is the empty cell. */
  function ChainCell(chain: Option<string>): string {
    if chain.Some? then chain.value else ""
  }

  /** The row of one record behind a report line priced at `price`. */
  function DetailRowOf(price: real, det: Balance): DetailRow {
    DetailRow(det.symbol, det.sourceType, det.sourceName, ChainCell(det.chain), det.amount, price, det.amount * price)
  }

  /** The row that confirms a zero balance for a line without records. */
  function ZeroRow(agg: AggregatedBalance): DetailRow {
    DetailRow(agg.symbol, Wallet, "", "", 0.0, agg.priceJpy, 0.0)
  }

  /** The rows one report line contributes to the detail file. */
  function RowsOf(agg: AggregatedBalance): seq<DetailRow> {
    if |agg.details| == 0 then [ZeroRow(agg)]
    else seq(|agg.details|, i requires 0 <= i < |agg.details| => DetailRowOf(agg.priceJpy, agg.details[i]))
  }

  /** `data.flatMap(...)` of `exportDetail`, before sorting. */
  function DetailRecords(data: seq<AggregatedBalance>): seq<DetailRow> {
    FlatMap(data, RowsOf)
  }

  /** A line without records gives exactly one row: a wallet row of amount and value zero at the line's price. */
  lemma ZeroRowRule(agg: AggregatedBalance)
    requires agg.details == []
    ensures var r := RowsOf(agg);
      && |r| == 1
      && r[0].symbol == agg.symbol
      && r[0].sourceType == Wallet
      && r[0].sourceName == "" && r[0].chain == ""
      && r[0].amount == 0.0 && r[0].value == 0.0
      && r[0].price == agg.priceJpy
  {
  }

  /** A line with records gives one row per record, valued at the line's price. */
  lemma DetailRowsRule(agg: AggregatedBalance)
    requires agg.details != []
    ensures var r := RowsOf(agg);
      && |r| == |agg.details|
      && forall i :: 0 <= i < |r| ==>
           var det := agg.details[i];
           && r[i].symbol == det.symbol
           && r[i].sourceType == det.sourceType
           && r[i].sourceName == det.sourceName
           && (det.chain.None? ==> r[i].chain == "")
           && (det.chain.Some? ==> r[i].chain == det.chain.value)
           && r[i].amount == det.amount
           && r[i].price == agg.priceJpy
           && r[i].value == det.amount * agg.priceJpy
  {
  }

  /** The number of rows a line contributes: its records, but at least one. */
  function RowsOfLine(agg: AggregatedBalance): nat {
    if |agg.details| == 0 then 1 else |agg.details|
  }

  /** The sum over the lines of `RowsOfLine`. */
  function RowCount(data: seq<AggregatedBalance>): nat {
    if data == [] then 0 else RowCount(data[..|data| - 1]) + RowsOfLine(data[|data| - 1])
  }

  /** The detail file has, per line, one row per record and at least one row. */
  lemma {:induction false} DetailRowCount(data: seq<AggregatedBalance>)
    ensures |DetailRecords(data)| == RowCount(data)
  {
    if data != [] {
      DetailRowCount(data[..|data| - 1]);
      assert |RowsOf(data[|data| - 1])| == RowsOfLine(data[|data| - 1]);
    }
  }

  /**
   * No report line disappears from the detail file: when a line's records
   * all carry its symbol, some row carries that symbol at the line's price.
   */
  lemma EveryLineHasARow(data: seq<AggregatedBalance>, k: nat)
    requires k < |data|
    requires forall d :: d in data[k].details ==> d.symbol == data[k].symbol
    ensures exists row :: row in DetailRecords(data) && row.symbol == data[k].symbol && row.price == data[k].priceJpy
  {
    var row := RowsOf(data[k])[0];
    if data[k].details != [] {
      assert data[k].details[0] in data[k].details;
    }
    FlatMapContains(data, RowsOf, k, row);
  }

  // ---------------------------------------------------------------------------
  // The sort of the detail rows
  // ---------------------------------------------------------------------------

  /** `localeCompare` as a strict total order on strings. */
  ghost predicate StrictTotalOrder(lt: (string, string) -> bool) {
    && (forall x :: !lt(x, x))
    && (forall x, y, z :: lt(x, y) && lt(y, z) ==> lt(x, z))
    && (forall x, y :: x != y ==> lt(x, y) || lt(y, x))
  }

  /** The comparator puts `a` first: by token, then name/address, then network. */
  predicate Ahead(lt: (string, string) -> bool, a: DetailRow, b: DetailRow) {
    if a.symbol != b.symbol then lt(a.symbol, b.symbol)
    else if a.sourceName != b.sourceName then lt(a.sourceName, b.sourceName)
    else lt(a.chain, b.chain)
  }

  function RowOrder(lt: (string, string) -> bool): (DetailRow, DetailRow) -> bool {
    (a, b) => Ahead(lt, a, b)
  }

  /** What `exportDetail` writes: the built rows, stably sorted. */
  function DetailFile(data: seq<AggregatedBalance>, lt: (string, string) -> bool): seq<DetailRow> {
    StableSort(DetailRecords(data), RowOrder(lt))
  }

  /** `records.sort(...)` on the built rows. */
  method ExportDetail(data: seq<AggregatedBalance>, lt: (string, string) -> bool) returns (records: seq<DetailRow>)
    ensures records == DetailFile(data, lt)
  {
    var built := DetailRecords(data);
    var a := new DetailRow[|built|](i requires 0 <= i < |built| => built[i]);
    assert a[..] == built;
    SortInPlace(a, RowOrder(lt));
    records := a[..];
  }

  /** Not ahead of one another means the same three keys. */
  lemma AheadTotal(lt: (string, string) -> bool, a: DetailRow, b: DetailRow)
    requires StrictTotalOrder(lt)
    ensures !Ahead(lt, a, b) && !Ahead(lt, b, a) <==>
              a.symbol == b.symbol && a.sourceName == b.sourceName && a.chain == b.chain
  {
  }

  /** The three-key comparator is a strict weak order when `lt` is a strict total order. */
  lemma RowOrderIsWeak(lt: (string, string) -> bool)
    requires StrictTotalOrder(lt)
    ensures StrictWeakOrder(RowOrder(lt))
  {
    var before := RowOrder(lt);
    forall x: DetailRow ensures !before(x, x) {
    }
    forall x: DetailRow, y: DetailRow, z: DetailRow | before(x, y) && before(y, z) ensures before(x, z) {
      AheadTransitive(lt, x, y, z);
    }
    forall x: DetailRow, y: DetailRow, z: DetailRow | !before(x, y) && !before(y, z) ensures !before(x, z) {
      AheadTotal(lt, x, y);
      AheadTotal(lt, y, z);
      if before(x, z) {
        if Ahead(lt, y, x) {
          AheadTransitive(lt, y, x, z);
          if Ahead(lt, z, y) {
            AheadTransitive(lt, z, y, x);
          }
        }
      }
    }
  }

  lemma AheadTransitive(lt: (string, string) -> bool, x: DetailRow, y: DetailRow, z: DetailRow)
    requires StrictTotalOrder(lt)
    requires Ahead(lt, x, y) && Ahead(lt, y, z)
    ensures Ahead(lt, x, z)
  {
  }

  /** The detail file is ordered by token, then name/address within a token, then network. */
  lemma DetailFileSorted(data: seq<AggregatedBalance>, lt: (string, string) -> bool)
    requires StrictTotalOrder(lt)
    ensures var r := DetailFile(data, lt);
      forall i, j :: 0 <= i < j < |r| ==>
        && (r[i].symbol == r[j].symbol || lt(r[i].symbol, r[j].symbol))
        && (r[i].symbol == r[j].symbol ==> r[i].sourceName == r[j].sourceName || lt(r[i].sourceName, r[j].sourceName))
        && (r[i].symbol == r[j].symbol && r[i].sourceName == r[j].sourceName ==>
              r[i].chain == r[j].chain || lt(r[i].chain, r[j].chain))
  {
    RowOrderIsWeak(lt);
    StableSortSorted(DetailRecords(data), RowOrder(lt));
    var r := DetailFile(data, lt);
    forall i, j | 0 <= i < j < |r|
      ensures && (r[i].symbol == r[j].symbol || lt(r[i].symbol, r[j].symbol))
              && (r[i].symbol == r[j].symbol ==> r[i].sourceName == r[j].sourceName || lt(r[i].sourceName, r[j].sourceName))
              && (r[i].symbol == r[j].symbol && r[i].sourceName == r[j].sourceName ==>
                    r[i].chain == r[j].chain || lt(r[i].chain, r[j].chain))
    {
      assert !RowOrder(lt)(r[j], r[i]);
    }
  }

  /** Sorting neither adds nor drops rows. */
  lemma DetailFilePermutes(data: seq<AggregatedBalance>, lt: (string, string) -> bool)
    ensures multiset(DetailFile(data, lt)) == multiset(DetailRecords(data))
    ensures |DetailFile(data, lt)| == RowCount(data)
  {
    StableSortPermutes(DetailRecords(data), RowOrder(lt));
    DetailRowCount(data);
    assert |DetailFile(data, lt)| == |multiset(DetailFile(data, lt))|;
  }

  /** Rows with the same three keys keep the order in which they were built. */
  lemma DetailFileStable(data: seq<AggregatedBalance>, lt: (string, string) -> bool, row: DetailRow)
    requires StrictTotalOrder(lt)
    ensures RankRun(DetailFile(data, lt), row, RowOrder(lt)) == RankRun(DetailRecords(data), row, RowOrder(lt))
  {
    RowOrderIsWeak(lt);
    StableSortKeepsRankOrder(DetailRecords(data), row, RowOrder(lt));
  }

  /** Every line of the report, zero balances included, shows up in the detail file at its price. */
  lemma ReportLineInDetailFile(tokens: seq<TokenDef>, all: seq<Balance>, prices: Price.PriceTable,
                               lt: (string, string) -> bool, k: nat)
    requires k < |Aggregator.Report(tokens, all, prices)|
    ensures var report := Aggregator.Report(tokens, all, prices);
      exists row :: row in DetailFile(report, lt) && row.symbol == report[k].symbol && row.price == report[k].priceJpy
  {
    var report := Aggregator.Report(tokens, all, prices);
    var e := report[k];
    Aggregator.ReportLines(tokens, all, prices, e);
    forall d | d in e.details
      ensures d.symbol == e.symbol
    {
      FilterMembership(all, Aggregator.HasSymbol(e.symbol), d);
    }
    EveryLineHasARow(report, k);
    var row :| row in DetailRecords(report) && row.symbol == e.symbol && row.price == e.priceJpy;
    DetailFilePermutes(report, lt);
    assert row in multiset(DetailFile(report, lt));
  }
}
