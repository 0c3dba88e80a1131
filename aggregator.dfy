/**
 * The aggregation engine (src/services/aggregator.ts): collects every
 * provider's records, groups them by symbol, builds one report line per
 * reported symbol with its total, price and value, and orders the lines by
 * value, largest first.
 *
 * `Fetched`, `Grouped`, `Universe`, `Entries` and `Report` are the reference
 * definitions; `Aggregate` and its helper methods are the imperative
 * `aggregate` proved equal to them.
 */
module Aggregator {
  import opened Common
  import opened Types
  import opened Sorting
  import opened Price
  import opened Providers

  // ---------------------------------------------------------------------------
  // 1. Fetching
  // ---------------------------------------------------------------------------

  /**
   * Every provider's records, in provider order; a provider that throws makes
   * `aggregate` reject with that error (there is no `try` around the loop).
   */
  function Fetched(providers: seq<Provider>, tokens: seq<TokenDef>): Outcome<seq<Balance>> {
    if providers == [] then Succeeded([])
    else match Fetched(providers[..|providers| - 1], tokens)
      case Threw(m) => Threw(m)
      case Succeeded(earlier) =>
        match Fetch(providers[|providers| - 1], tokens)
        case Threw(m) => Threw(m)
        case Succeeded(more) => Succeeded(earlier + more)
  }

  /** Once a provider throws, the later ones do not matter. */
  lemma {:induction false} FetchedPrefixThrows(providers: seq<Provider>, tokens: seq<TokenDef>, k: nat)
    requires k <= |providers| && Fetched(providers[..k], tokens).Threw?
    ensures Fetched(providers, tokens) == Fetched(providers[..k], tokens)
  {
    if k < |providers| {
      var init := providers[..|providers| - 1];
      assert init[..k] == providers[..k];
      FetchedPrefixThrows(init, tokens, k);
    } else {
      assert providers[..k] == providers;
    }
  }

  /** The records of a provider that does not throw. */
  function Output(tokens: seq<TokenDef>): Provider -> seq<Balance> {
    p => if Fetch(p, tokens).Succeeded? then Fetch(p, tokens).value else []
  }

  /** The provider loop. */
  method FetchAll(providers: seq<Provider>, tokens: seq<TokenDef>) returns (r: Outcome<seq<Balance>>)
    ensures r == Fetched(providers, tokens)
  {
    var allBalances := [];
    for i := 0 to |providers|
      invariant Fetched(providers[..i], tokens) == Succeeded(allBalances)
    {
      assert providers[..i + 1][..i] == providers[..i];
      var balances := FetchBalances(providers[i], tokens);
      if balances.Threw? {
        FetchedPrefixThrows(providers, tokens, i + 1);
        return Threw(balances.message);
      }
      allBalances := allBalances + balances.value;
    }
    assert providers[..|providers|] == providers;
    return Succeeded(allBalances);
  }

  // ---------------------------------------------------------------------------
  // 2. Grouping
  // ---------------------------------------------------------------------------

  function HasSymbol(s: string): Balance -> bool {
    (b: Balance) => b.symbol == s
  }

  /** The records of one symbol, in their order. */
  function Details(all: seq<Balance>, s: string): seq<Balance> {
    Filter(all, HasSymbol(s))
  }

  /** `all.map(b => b.symbol)` */
  function BalanceSymbols(all: seq<Balance>): seq<string> {
    if all == [] then [] else BalanceSymbols(all[..|all| - 1]) + [all[|all| - 1].symbol]
  }

  /** The `grouped` map: each symbol to its records, appended one at a time. */
  function Grouped(all: seq<Balance>): map<string, seq<Balance>> {
    if all == [] then map[]
    else
      var b := all[|all| - 1];
      var m := Grouped(all[..|all| - 1]);
      m[b.symbol := (if b.symbol in m then m[b.symbol] else []) + [b]]
  }

  /** The grouping loop; `keys` is the key order of the `Map` (first insertion). */
  method Group(all: seq<Balance>) returns (grouped: map<string, seq<Balance>>, keys: seq<string>)
    ensures grouped == Grouped(all) && keys == Distinct(BalanceSymbols(all))
  {
    grouped := map[];
    keys := [];
    for i := 0 to |all|
      invariant grouped == Grouped(all[..i]) && keys == Distinct(BalanceSymbols(all[..i]))
      invariant forall k :: k in grouped <==> k in keys
    {
      var b := all[i];
      GroupStep(all, i);
      DistinctMembership(BalanceSymbols(all[..i]), b.symbol);
      var existing := if b.symbol in grouped then grouped[b.symbol] else [];
      existing := existing + [b];
      if b.symbol !in grouped {
        keys := keys + [b.symbol];
      }
      grouped := grouped[b.symbol := existing];
    }
    assert all[..|all|] == all;
  }

  /** One record more: its symbol's group grows by it, and the key order gains the symbol when it is new. */
  lemma GroupStep(all: seq<Balance>, i: nat)
    requires i < |all|
    ensures var m := Grouped(all[..i]);
      Grouped(all[..i + 1]) == m[all[i].symbol := (if all[i].symbol in m then m[all[i].symbol] else []) + [all[i]]]
    ensures var d := Distinct(BalanceSymbols(all[..i]));
      Distinct(BalanceSymbols(all[..i + 1])) == if all[i].symbol in d then d else d + [all[i].symbol]
  {
    assert all[..i + 1][..i] == all[..i];
    assert BalanceSymbols(all[..i + 1]) == BalanceSymbols(all[..i]) + [all[i].symbol];
    assert (BalanceSymbols(all[..i]) + [all[i].symbol])[..|BalanceSymbols(all[..i])|] == BalanceSymbols(all[..i]);
  }

  /** Each group holds exactly the records of its symbol, in their order; a symbol with no record has no group. */
  lemma {:induction false} GroupedSpec(all: seq<Balance>, s: string)
    ensures s in Grouped(all) <==> Details(all, s) != []
    ensures s in Grouped(all) ==> Grouped(all)[s] == Details(all, s)
  {
    if all != [] {
      GroupedSpec(all[..|all| - 1], s);
    }
  }

  lemma {:induction false} BalanceSymbolsSpec(all: seq<Balance>, s: string)
    ensures s in BalanceSymbols(all) <==> Details(all, s) != []
  {
    if all != [] {
      BalanceSymbolsSpec(all[..|all| - 1], s);
    }
  }

  // ---------------------------------------------------------------------------
  // 3. The symbol universe
  // ---------------------------------------------------------------------------

  /** `new Set([...configured symbols, ...grouped.keys()])` */
  function Universe(tokens: seq<TokenDef>, all: seq<Balance>): seq<string> {
    Distinct(Symbols(tokens) + Distinct(BalanceSymbols(all)))
  }

  /** The universe lists every symbol once. */
  lemma UniverseDistinct(tokens: seq<TokenDef>, all: seq<Balance>)
    ensures NoDuplicates(Universe(tokens, all))
  {
  }

  /**
   * The configured symbols come first, in configuration order, then the
   * observed symbols that are not configured, in the order of their first
   * record.
   */
  lemma UniverseOrder(tokens: seq<TokenDef>, all: seq<Balance>)
    ensures Universe(tokens, all)
         == Distinct(Symbols(tokens)) + Filter(Distinct(BalanceSymbols(all)), NotIn(Symbols(tokens)))
  {
    DistinctConcat(Symbols(tokens), Distinct(BalanceSymbols(all)));
    DistinctOfDistinct(BalanceSymbols(all));
  }

  /** A symbol is in the universe iff it is configured or has a record. */
  lemma UniverseMembership(tokens: seq<TokenDef>, all: seq<Balance>, s: string)
    ensures s in Universe(tokens, all) <==> s in Symbols(tokens) || Details(all, s) != []
  {
    DistinctMembership(Symbols(tokens) + Distinct(BalanceSymbols(all)), s);
    DistinctMembership(BalanceSymbols(all), s);
    BalanceSymbolsSpec(all, s);
  }

  // ---------------------------------------------------------------------------
  // 4. Report lines
  // ---------------------------------------------------------------------------

  /** What one symbol of the universe contributes: its line, or nothing when it is skipped. */
  function Entry(tokens: seq<TokenDef>, all: seq<Balance>, prices: PriceTable, symbol: string): seq<AggregatedBalance> {
    if symbol == ValuationSymbol then [] else EntryLine(tokens, prices, symbol, Details(all, symbol))
  }

  /** The line of a symbol other than JPY, from its group of records. */
  function EntryLine(tokens: seq<TokenDef>, prices: PriceTable, symbol: string, details: seq<Balance>)
    : seq<AggregatedBalance>
  {
    var totalAmount := SumAmounts(details);
    if totalAmount <= 0.0 && symbol !in Symbols(tokens) then []
    else
      var price := PriceOf(prices, symbol);
      [AggregatedBalance(symbol, totalAmount, details, price, totalAmount * price)]
  }

  function EntryFor(tokens: seq<TokenDef>, all: seq<Balance>, prices: PriceTable): string -> seq<AggregatedBalance> {
    symbol => Entry(tokens, all, prices, symbol)
  }

  /** The report lines before sorting, in universe order. */
  function Entries(tokens: seq<TokenDef>, all: seq<Balance>, prices: PriceTable): seq<AggregatedBalance> {
    FlatMap(Universe(tokens, all), EntryFor(tokens, all, prices))
  }

  /** The group looked up for `symbol`, absent groups read as empty. */
  lemma GroupLookup(grouped: map<string, seq<Balance>>, all: seq<Balance>, symbol: string)
    requires grouped == Grouped(all)
    ensures (if symbol in grouped then grouped[symbol] else []) == Details(all, symbol)
  {
    GroupedSpec(all, symbol);
  }

  /** One pass of the loop body: the line pushed for `symbol` given its group, if any. */
  method EntryOf(tokens: seq<TokenDef>, symbol: string, details: seq<Balance>, prices: PriceTable)
    returns (line: seq<AggregatedBalance>)
    ensures line == if symbol == ValuationSymbol then [] else EntryLine(tokens, prices, symbol, details)
  {
    if symbol == ValuationSymbol {
      return [];
    }
    var totalAmount := SumAmounts(details);
    if totalAmount <= 0.0 && symbol !in Symbols(tokens) {
      return [];
    }
    var price := PriceOf(prices, symbol);
    assert totalAmount * price == SumAmounts(details) * PriceOf(prices, symbol);
    line := [AggregatedBalance(symbol, totalAmount, details, price, totalAmount * price)];
  }

  /** The loop over the universe that pushes the report lines. */
  method BuildEntries(tokens: seq<TokenDef>, allSymbols: seq<string>, grouped: map<string, seq<Balance>>,
                      prices: PriceTable, ghost all: seq<Balance>)
    returns (result: seq<AggregatedBalance>)
    requires grouped == Grouped(all)
    ensures result == FlatMap(allSymbols, EntryFor(tokens, all, prices))
  {
    result := [];
    ghost var f := EntryFor(tokens, all, prices);
    for i := 0 to |allSymbols|
      invariant result == FlatMap(allSymbols[..i], f)
    {
      var symbol := allSymbols[i];
      assert allSymbols[..i + 1][..i] == allSymbols[..i];
      assert FlatMap(allSymbols[..i + 1], f) == FlatMap(allSymbols[..i], f) + Entry(tokens, all, prices, symbol);
      GroupLookup(grouped, all, symbol);
      var details := if symbol in grouped then grouped[symbol] else [];
      var line := EntryOf(tokens, symbol, details, prices);
      result := result + line;
    }
    assert allSymbols[..|allSymbols|] == allSymbols;
  }

  // ---------------------------------------------------------------------------
  // 5. Sorting and the whole
  // ---------------------------------------------------------------------------

  /** The comparator `(a, b) => b.valueJpy - a.valueJpy` puts `a` first when it is worth more. */
  function ByValueDesc(a: AggregatedBalance, b: AggregatedBalance): bool {
    a.valueJpy > b.valueJpy
  }

  /** The lines of the report, sorted. */
  function Report(tokens: seq<TokenDef>, all: seq<Balance>, prices: PriceTable): seq<AggregatedBalance> {
    StableSort(Entries(tokens, all, prices), ByValueDesc)
  }

  /** What `aggregate` resolves to, or the error it rejects with. */
  function AggregateSpec(tokens: seq<TokenDef>, providers: seq<Provider>, response: PriceResponse)
    : Outcome<seq<AggregatedBalance>>
  {
    match Fetched(providers, tokens)
    case Threw(m) => Threw(m)
    case Succeeded(all) => Succeeded(Report(tokens, all, PriceTableOf(tokens, response)))
  }

  /** `AssetAggregator.aggregate`; `response` is what the price request returns. */
  method Aggregate(tokens: seq<TokenDef>, providers: seq<Provider>, response: PriceResponse)
    returns (r: Outcome<seq<AggregatedBalance>>)
    ensures r == AggregateSpec(tokens, providers, response)
  {
    var fetched := FetchAll(providers, tokens);
    if fetched.Threw? {
      return Threw(fetched.message);
    }
    var allBalances := fetched.value;
    var prices := FetchPrices(tokens, response);
    var grouped, keys := Group(allBalances);
    var allSymbols := Distinct(Symbols(tokens) + keys);
    var result := BuildEntries(tokens, allSymbols, grouped, prices, allBalances);
    var sorted := new AggregatedBalance[|result|](i requires 0 <= i < |result| => result[i]);
    assert sorted[..] == result;
    SortInPlace(sorted, ByValueDesc);
    return Succeeded(sorted[..]);
  }

  // ---------------------------------------------------------------------------
  // Properties
  // ---------------------------------------------------------------------------

  /** The working set exists iff no provider throws. */
  lemma {:induction false} FetchedSucceeds(providers: seq<Provider>, tokens: seq<TokenDef>)
    ensures Fetched(providers, tokens).Succeeded? <==>
              forall i :: 0 <= i < |providers| ==> Fetch(providers[i], tokens).Succeeded?
  {
    if providers != [] {
      var init := providers[..|providers| - 1];
      FetchedSucceeds(init, tokens);
      assert forall i :: 0 <= i < |init| ==> init[i] == providers[i];
    }
  }

  /** The working set is every provider's records concatenated in provider order. */
  lemma {:induction false} FetchedConcatenates(providers: seq<Provider>, tokens: seq<TokenDef>)
    requires Fetched(providers, tokens).Succeeded?
    ensures Fetched(providers, tokens).value == FlatMap(providers, Output(tokens))
  {
    if providers != [] {
      FetchedConcatenates(providers[..|providers| - 1], tokens);
    }
  }

  /** A rejection carries the error of the first provider that throws. */
  lemma {:induction false} FetchedRejects(providers: seq<Provider>, tokens: seq<TokenDef>)
    requires Fetched(providers, tokens).Threw?
    ensures exists i :: 0 <= i < |providers| && Fetch(providers[i], tokens) == Threw(Fetched(providers, tokens).message)
                     && forall j :: 0 <= j < i ==> Fetch(providers[j], tokens).Succeeded?
  {
    var init := providers[..|providers| - 1];
    var n := |providers| - 1;
    if Fetched(init, tokens).Threw? {
      FetchedRejects(init, tokens);
      var i :| 0 <= i < n && Fetch(init[i], tokens) == Threw(Fetched(init, tokens).message)
               && forall j :: 0 <= j < i ==> Fetch(init[j], tokens).Succeeded?;
      assert forall j :: 0 <= j <= i ==> init[j] == providers[j];
    } else {
      FetchedSucceeds(init, tokens);
      assert forall j :: 0 <= j < n ==> init[j] == providers[j];
    }
  }

  lemma EntryForShape(tokens: seq<TokenDef>, all: seq<Balance>, prices: PriceTable, s: string)
    ensures var f := Entry(tokens, all, prices, s);
      f == [] || (|f| == 1 && f[0].symbol == s)
  {
  }

  /** A line is in the entries iff it is the line its symbol contributes, and its symbol is in the list. */
  lemma {:induction false} EntriesMembership(symbols: seq<string>, tokens: seq<TokenDef>, all: seq<Balance>,
                                             prices: PriceTable, e: AggregatedBalance)
    ensures e in FlatMap(symbols, EntryFor(tokens, all, prices)) <==>
              e.symbol in symbols && EntryFor(tokens, all, prices)(e.symbol) == [e]
  {
    if symbols != [] {
      var init := symbols[..|symbols| - 1];
      var last := symbols[|symbols| - 1];
      EntriesMembership(init, tokens, all, prices, e);
      EntryForShape(tokens, all, prices, last);
      assert symbols == init + [last];
    }
  }

  /** No two lines share a symbol. */
  predicate OnePerSymbol(r: seq<AggregatedBalance>) {
    forall i, j :: 0 <= i < j < |r| ==> r[i].symbol != r[j].symbol
  }

  /** Over a list without repeats, no two entries share a symbol. */
  lemma {:induction false} EntriesDistinct(symbols: seq<string>, tokens: seq<TokenDef>, all: seq<Balance>, prices: PriceTable)
    requires NoDuplicates(symbols)
    ensures OnePerSymbol(FlatMap(symbols, EntryFor(tokens, all, prices)))
  {
    if symbols != [] {
      var init := symbols[..|symbols| - 1];
      var last := symbols[|symbols| - 1];
      var f := EntryFor(tokens, all, prices);
      EntriesDistinct(init, tokens, all, prices);
      EntryForShape(tokens, all, prices, last);
      var a := FlatMap(init, f);
      var r := FlatMap(symbols, f);
      assert symbols == init + [last];
      FlatMapAppend(init, [last], f);
      assert r == a + f(last);
      forall k | 0 <= k < |a| ensures a[k].symbol != last {
        EntriesMembership(init, tokens, all, prices, a[k]);
      }
      forall i, j | 0 <= i < j < |r| ensures r[i].symbol != r[j].symbol {
        if j < |a| {
          assert r[i] == a[i] && r[j] == a[j];
        } else {
          assert r[i] == a[i] && r[j].symbol == last;
        }
      }
    }
  }

  /** The report only reorders the entries. */
  lemma ReportPermutes(tokens: seq<TokenDef>, all: seq<Balance>, prices: PriceTable)
    ensures multiset(Report(tokens, all, prices)) == multiset(Entries(tokens, all, prices))
  {
    StableSortPermutes(Entries(tokens, all, prices), ByValueDesc);
  }

  lemma ReportMember(tokens: seq<TokenDef>, all: seq<Balance>, prices: PriceTable, e: AggregatedBalance)
    ensures e in Report(tokens, all, prices) <==> e in Entries(tokens, all, prices)
  {
    ReportPermutes(tokens, all, prices);
    assert e in Report(tokens, all, prices) <==> e in multiset(Report(tokens, all, prices));
    assert e in Entries(tokens, all, prices) <==> e in multiset(Entries(tokens, all, prices));
  }

  /**
   * A line of the report: its symbol is not `JPY`, its details are the
   * records of its symbol, its total is their sum, its price the table's
   * (0 when absent) and its value the total times the price.
   */
  lemma ReportLines(tokens: seq<TokenDef>, all: seq<Balance>, prices: PriceTable, e: AggregatedBalance)
    requires e in Report(tokens, all, prices)
    ensures e.symbol != ValuationSymbol
    ensures e.details == Details(all, e.symbol)
    ensures e.totalAmount == SumAmounts(e.details)
    ensures e.priceJpy == PriceOf(prices, e.symbol)
    ensures e.valueJpy == e.totalAmount * e.priceJpy
    ensures e.totalAmount > 0.0 || e.symbol in Symbols(tokens)
  {
    ReportEntry(tokens, all, prices, e);
    EntryFields(tokens, all, prices, e);
  }

  lemma ReportEntry(tokens: seq<TokenDef>, all: seq<Balance>, prices: PriceTable, e: AggregatedBalance)
    requires e in Report(tokens, all, prices)
    ensures Entry(tokens, all, prices, e.symbol) == [e]
  {
    ReportMember(tokens, all, prices, e);
    EntriesMembership(Universe(tokens, all), tokens, all, prices, e);
  }

  lemma EntryFields(tokens: seq<TokenDef>, all: seq<Balance>, prices: PriceTable, e: AggregatedBalance)
    requires Entry(tokens, all, prices, e.symbol) == [e]
    ensures e.symbol != ValuationSymbol
    ensures e.details == Details(all, e.symbol) && e.totalAmount == SumAmounts(e.details)
    ensures e.priceJpy == PriceOf(prices, e.symbol) && e.valueJpy == e.totalAmount * e.priceJpy
    ensures e.totalAmount > 0.0 || e.symbol in Symbols(tokens)
  {
  }

  /**
   * A symbol has a line iff it is not `JPY` and it is configured or its
   * records sum to more than 0.
   */
  lemma ReportSymbols(tokens: seq<TokenDef>, all: seq<Balance>, prices: PriceTable, s: string)
    ensures (exists e :: e in Report(tokens, all, prices) && e.symbol == s) <==>
              s != ValuationSymbol && (s in Symbols(tokens) || SumAmounts(Details(all, s)) > 0.0)
  {
    if s != ValuationSymbol && (s in Symbols(tokens) || SumAmounts(Details(all, s)) > 0.0) {
      UniverseMembership(tokens, all, s);
      if Details(all, s) == [] {
        assert SumAmounts(Details(all, s)) == 0.0;
      }
      EntryForShape(tokens, all, prices, s);
      var e := Entry(tokens, all, prices, s)[0];
      EntriesMembership(Universe(tokens, all), tokens, all, prices, e);
      ReportMember(tokens, all, prices, e);
    }
    if exists e :: e in Report(tokens, all, prices) && e.symbol == s {
      var e :| e in Report(tokens, all, prices) && e.symbol == s;
      ReportLines(tokens, all, prices, e);
    }
  }

  lemma {:induction false} NoRecordNoDetails(all: seq<Balance>, s: string)
    requires forall i :: 0 <= i < |all| ==> all[i].symbol != s
    ensures Details(all, s) == []
  {
    if all != [] {
      NoRecordNoDetails(all[..|all| - 1], s);
    }
  }

  /** A configured symbol without any record still gets a line, with total 0, no details and value 0. */
  lemma ConfiguredWithoutRecords(tokens: seq<TokenDef>, all: seq<Balance>, prices: PriceTable, s: string)
    requires s in Symbols(tokens) && s != ValuationSymbol
    requires forall i :: 0 <= i < |all| ==> all[i].symbol != s
    ensures AggregatedBalance(s, 0.0, [], PriceOf(prices, s), 0.0) in Report(tokens, all, prices)
  {
    var e := AggregatedBalance(s, 0.0, [], PriceOf(prices, s), 0.0);
    NoRecordNoDetails(all, s);
    UniverseMembership(tokens, all, s);
    assert Entry(tokens, all, prices, s) == [e];
    EntriesMembership(Universe(tokens, all), tokens, all, prices, e);
    ReportMember(tokens, all, prices, e);
  }

  lemma EntriesOnePerSymbol(tokens: seq<TokenDef>, all: seq<Balance>, prices: PriceTable)
    ensures OnePerSymbol(Entries(tokens, all, prices))
  {
    UniverseDistinct(tokens, all);
    EntriesDistinct(Universe(tokens, all), tokens, all, prices);
  }

  /** No two lines of the report share a symbol. */
  lemma ReportOnePerSymbol(tokens: seq<TokenDef>, all: seq<Balance>, prices: PriceTable)
    ensures OnePerSymbol(Report(tokens, all, prices))
  {
    var r := Report(tokens, all, prices);
    var es := Entries(tokens, all, prices);
    EntriesOnePerSymbol(tokens, all, prices);
    assert NoDuplicates(es) by {
      forall i, j | 0 <= i < j < |es| ensures es[i] != es[j] {
        assert es[i].symbol != es[j].symbol;
      }
    }
    ReportPermutes(tokens, all, prices);
    PermutationNoDuplicates(r, es);
    forall i, j | 0 <= i < j < |r| ensures r[i].symbol != r[j].symbol {
      ReportEntry(tokens, all, prices, r[i]);
      ReportEntry(tokens, all, prices, r[j]);
      assert r[i] != r[j];
    }
  }

  lemma ByValueDescOrders()
    ensures StrictWeakOrder(ByValueDesc)
  {
  }

  /** The report is ordered by value, largest first. */
  lemma ReportSorted(tokens: seq<TokenDef>, all: seq<Balance>, prices: PriceTable)
    ensures var r := Report(tokens, all, prices);
      forall i, j :: 0 <= i < j < |r| ==> r[i].valueJpy >= r[j].valueJpy
  {
    ByValueDescOrders();
    StableSortSorted(Entries(tokens, all, prices), ByValueDesc);
  }

  /** Lines of equal value keep their universe order: the sort is stable. */
  lemma ReportStable(tokens: seq<TokenDef>, all: seq<Balance>, prices: PriceTable, e: AggregatedBalance)
    ensures RankRun(Report(tokens, all, prices), e, ByValueDesc) == RankRun(Entries(tokens, all, prices), e, ByValueDesc)
  {
    ByValueDescOrders();
    StableSortKeepsRankOrder(Entries(tokens, all, prices), e, ByValueDesc);
  }
}
