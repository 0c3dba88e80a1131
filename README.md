# wallet-accumulator, modelled in Dafny

wallet-accumulator is a command-line tool that totals a person's crypto
holdings. It reads a list of wallet addresses and a token configuration.
Balance providers then query EVM chains, Solana, Bitcoin, centralised
exchanges and a BITPOINT spot statement (a CSV file). The records they return
are grouped by symbol, priced in JPY from one price request, and turned into
one report line per symbol with its total, price and value, sorted by value.
The report is written as a totals CSV or as a detail CSV with one row per
record.

This project models that pipeline:

- `types.dfy`: the shared records (`TokenDef`, `Balance`, `AggregatedBalance`).
- `price.dfy`: the price table.
- One file per provider: `evm.dfy`, `solana.dfy`, `bitcoin.dfy`, `cex.dfy` and
  `bitpoint_csv.dfy`.
- `providers.dfy`: the closed set of providers.
- `aggregator.dfy`: the aggregation.
- `csv.dfy`: the rows of the two report files.
- `sorting.dfy`: the stable sort that `Array.prototype.sort` performs.
- `common.dfy`: string and sequence helpers.

How the source is mapped:

- **Remote calls become inputs.** Each RPC, HTTP request, exchange call and
  file read is an input value or a total function standing for the answer.
  For example, `Evm.EvmRpc` holds the chain queries and `Bitpoint.CsvFile`
  says whether the file is missing, unreadable or readable.
- **Loops become methods.** The source's loops are methods proved equal to
  reference functions, usually left folds. The properties are lemmas about
  those functions.
- **Classes stay classes.** The two classes whose fields the source updates
  are Dafny classes: `Evm.EvmProvider` (its decimals cache) and
  `Cex.CexProvider` (its exchange list).
- **Amounts are exact.** All amounts are exact reals.

## Model

| member | source | states |
|---|---|---|
| Types.FindSymbol | src/services/providers/bitcoin.ts:16-17 | `tokens.find` by symbol: `None` exactly when no token has the symbol, otherwise a configured token with that symbol |
| Price.Ids | src/services/price.ts:25 | one id per price target, in target order, each the target's `coingeckoId` |
| Price.FetchPrices | src/services/price.ts:12-54 | the table the method builds (seed, early return, request failure, quote loop) is `PriceTableOf` |
| Price.SetQuotesKeys | src/services/price.ts:37-45 | the quote loop adds exactly the target symbols to the table's keys |
| Price.SetQuotesValue | src/services/price.ts:37-45 | a target's symbol ends up holding that target's quote when no later target has the same symbol, so the last write wins |
| Price.SetQuotesUntouched | src/services/price.ts:37-45 | a symbol that no target carries keeps its entry, or its absence |
| Price.PriceTableDegrades | src/services/price.ts:19-51 | with no token carrying a price id, or when the request throws, the table is `{JPY: 1}` alone |
| Price.PriceTableOnSuccess | src/services/price.ts:35-45 | on success the keys are JPY plus the target symbols; each target symbol holds its last target's quote (the `jpy` field, or 0 when the id is missing from the response) |
| Price.PriceTableSeeded | src/services/price.ts:13-14 | JPY is always in the table, at 1 unless a priced token with symbol JPY overwrote it |
| Price.PriceTableOnlyTargets | src/services/price.ts:17 | a symbol other than JPY with no priced token never gets an entry |
| Price.IdsParameterRoundTrip | src/services/price.ts:25 | when no id contains a comma, the comma-joined `ids` parameter splits back into the id list |
| Price.JpyCoinOverwritesSeed | src/index.ts:36 | with the default `JPY`/`jpy-coin` entry and a response lacking that id, the JPY seed is overwritten with 0 |
| Solana.Doublings | src/services/providers/solana.ts:31-34 | the sleep schedule has one delay per retry |
| Solana.RetryFrom | src/services/providers/solana.ts:15-40 | `withRetry` from a given retry count makes at most 5 retries in all |
| Solana.RetryFromSpec | src/services/providers/solana.ts:15-40 | the delays double from the starting delay; every retried attempt was a rate limit; the outcome is the last attempt's; that outcome is a success, another error, or a rate limit once 5 retries are used |
| Solana.Retry | src/services/providers/solana.ts:15-40 | `withRetry` sleeps at most 5 times |
| Solana.RetrySpec | src/services/providers/solana.ts:15-40 | from retry 0 and a 1000 ms delay, the same four facts as `RetryFromSpec` |
| Solana.DoublingsAt | src/services/providers/solana.ts:18-34 | the k-th sleep lasts 1000 × 2^k ms |
| Solana.WithRetry | src/services/providers/solana.ts:20-39 | the `while (true)` loop returns the outcome and the sleeps of `Retry` |
| Solana.RetryEndsAtFirstOtherOutcome | src/services/providers/solana.ts:20-37 | after n ≤ 5 rate limits, the first attempt that is not a rate limit is returned, or rethrown, after n doubling sleeps |
| Solana.RetryAfterTwoRateLimits | src/services/providers/solana.ts:27-34 | two rate limits and then a success give the value after sleeps of 1000 and 2000 ms |
| Solana.RetryGivesUpAfterFive | src/services/providers/solana.ts:17-28 | six rate limits in a row: the sixth is rethrown after sleeps of 1, 2, 4, 8 and 16 s |
| Solana.MintToken | src/services/providers/solana.ts:88-90 | the token found has `addresses.solana` equal to the mint; `None` means no token has it |
| Solana.MintTokenFirst | src/services/providers/solana.ts:88-90 | the token found is the first one with that mint |
| Solana.FetchBalances | src/services/providers/solana.ts:42-110 | the wallet filter and wallet loop, each wallet inside its own `try`, build `SolanaBalances` |
| Solana.FetchWallet | src/services/providers/solana.ts:53-106 | one wallet's `try` body pushes exactly `WalletRecords`, including the records pushed before a throw |
| Solana.FetchSol | src/services/providers/solana.ts:60-73 | the SOL step is `SolPart`: nothing when SOL is not configured, a thrown error, or a record when lamports/10^9 > 0 |
| Solana.CollectSpl | src/services/providers/solana.ts:81-101 | the token-account loop pushes `SplRecords`: positive amounts of configured mints, in account order |
| Solana.SolanaBalancesAppend | src/services/providers/solana.ts:52-107 | wallets are independent: the records of a concatenation are the concatenation of the records |
| Solana.SolRecordSurvivesAccountFailure | src/services/providers/solana.ts:59-106 | when listing token accounts fails after a positive SOL balance, the SOL record already pushed stays |
| Solana.SplRecordsShape | src/services/providers/solana.ts:81-101 | every SPL record is a positive wallet holding on chain `solana`, of a token with a `solana` address |
| Solana.WalletRecordsShape | src/services/providers/solana.ts:59-101 | every record of a wallet is a positive `solana` wallet holding of SOL or of a token with a `solana` address |
| Solana.SolanaBalancesShape | src/services/providers/solana.ts:46-107 | every record comes from a listed wallet that passes the Solana filter and is such a holding |
| Solana.SplAccountUsesFirstMatch | src/services/providers/solana.ts:86-100 | a positive account is recorded under the symbol of the first token whose `solana` address is its mint |
| Evm.DecimalsLookup | src/services/providers/evm.ts:38-62 | the cache only grows, by the looked-up key at most; a result is returned exactly when its key is cached, with the cached value; an uncached key on a chain with a client takes the contract's answer, cached when there is one, and an uncached key on a chain without a client gives nothing and leaves the cache alone |
| Evm.FormatUnits | src/services/providers/evm.ts:134 | the scaled amount is positive exactly when the raw amount is |
| Evm.TokenAddress | src/services/providers/evm.ts:96 | the address is `addresses[chain]` exactly when that entry is present and non-empty; otherwise there is none, so the empty string is never returned |
| Evm.TargetChainsOf | src/services/providers/evm.ts:76-92 | the two guarded loops build `TargetChains` |
| Evm.NativeChainsOf | src/services/providers/evm.ts:77-83 | the loop over `Object.entries(chains)` keeps the supported chains marked `native` |
| Evm.AddChainsSpec | src/services/providers/evm.ts:86-92 | the address loop keeps the native chains as a prefix, adds no duplicates, and adds exactly the supported chains of `addresses` |
| Evm.TargetChainsSpec | src/services/providers/evm.ts:76-92 | target chains are duplicate-free and supported, native chains come first, and a chain is targeted iff it is supported and native for the token or has an address |
| Evm.EvmProvider.constructor | src/services/providers/evm.ts:27-36 | a provider starts with the given wallets and an empty decimals cache |
| Evm.EvmProvider.GetErc20Decimals | src/services/providers/evm.ts:38-62 | the result and the new cache are `DecimalsLookup` of the old cache |
| Evm.EvmProvider.FetchBalances | src/services/providers/evm.ts:64-153 | the records and the cache after the token loop are `EvmFetch` of the old cache |
| Evm.EvmProvider.FetchToken | src/services/providers/evm.ts:94-149 | the chain loop of one token is `ObserveChains` |
| Evm.EvmProvider.FetchChain | src/services/providers/evm.ts:101-148 | the wallet loop of one token on one chain is `ObserveWallets` |
| Evm.EvmProvider.FetchWallet | src/services/providers/evm.ts:105-147 | the `try` body for one wallet is `ObserveWallet` |
| Evm.ConfigDecimalsFallback | src/services/providers/evm.ts:107 | a missing or zero configured `decimals` means 18, otherwise the configured value is used |
| Evm.NativeWins | src/services/providers/evm.ts:109-111 | on a chain listed as native, a positive native balance is appended scaled by the configured decimals, whatever `addresses` holds, and the cache is untouched |
| Evm.ContractDecimalsWin | src/services/providers/evm.ts:120-123 | an ERC-20 balance is scaled by the contract's decimals whenever the lookup returns them, a contract 0 included |
| Evm.ContractDecimalsFetched | src/services/providers/evm.ts:120-123 | a positive ERC-20 balance read for an uncached contract on a chain with a client is scaled by the contract's `decimals()` answer, which is then cached |
| Evm.ConfigDecimalsWhenLookupFails | src/services/providers/evm.ts:107-128 | when the decimals lookup gives nothing, a positive ERC-20 balance is recorded scaled by the configured decimals (18 when unset or 0), and the cache is unchanged |
| Evm.FailedCallSkipped | src/services/providers/evm.ts:145-147 | a failing balance call leaves the records and the cache unchanged |
| Evm.NoEvmWallet | src/services/providers/evm.ts:69-70 | without a `0x` wallet nothing is reported and nothing is cached |
| Evm.ObserveWalletGood | src/services/providers/evm.ts:105-147 | one wallet step keeps the invariant (records are positive holdings of configured symbols in listed wallets on supported chains, and the cache is sound), only extends the cache, and only appends records |
| Evm.ObserveWalletsGood | src/services/providers/evm.ts:101-148 | the wallet loop keeps the same invariant |
| Evm.ObserveChainsGood | src/services/providers/evm.ts:94-149 | the chain loop keeps the same invariant |
| Evm.ObserveTokensGood | src/services/providers/evm.ts:74-150 | the token loop keeps the same invariant |
| Evm.EvmFetchSpec | src/services/providers/evm.ts:64-153 | every EVM record is a positive holding of a configured symbol, in a listed `0x` wallet, on a supported chain; the cache only grows and stays sound |
| Bitcoin.FetchBalances | src/services/providers/bitcoin.ts:8-52 | the wallet filter, the `BTC` gate and the wallet loop build `BitcoinBalances` |
| Bitcoin.BitcoinBalancesEmpty | src/services/providers/bitcoin.ts:13-17 | with `BTC` not configured, or no address starting with `1`, `3` or `bc1`, nothing is reported |
| Bitcoin.BitcoinBalancesShape | src/services/providers/bitcoin.ts:21-49 | there are no more records than routed wallets, and every record is a positive `BTC` wallet holding on chain `bitcoin`, of (funded − spent)/10^8 of a listed Bitcoin wallet whose request succeeded |
| Bitcoin.BitcoinBalancesAppend | src/services/providers/bitcoin.ts:21-49 | the wallets are read in list order: the records of `a + b` are those of `a` followed by those of `b` |
| Bitcoin.BitcoinBalancesSingle | src/services/providers/bitcoin.ts:34-42 | one address gives exactly its holding when `BTC` is configured, the address starts with `1`, `3` or `bc1`, its request succeeds and the balance is positive, and nothing otherwise |
| Bitcoin.FailedWalletSkipped | src/services/providers/bitcoin.ts:43-45 | a wallet whose request fails adds nothing, and the wallets after it are still read |
| Cex.CexProvider.constructor | src/services/providers/cex.ts:8-36 | the exchange list is `EnabledExchanges` |
| Cex.CexProvider.FetchBalances | src/services/providers/cex.ts:38-78 | the exchange loop, each exchange inside its own `try`, builds `CexBalances` |
| Cex.CollectEntries | src/services/providers/cex.ts:54-71 | the loop over `balance.total` pushes `EntryRecords` |
| Cex.EnabledFromIds | src/services/providers/cex.ts:17-35 | the enabled ids are exactly the scanned ids that have both credentials, a library class and a successful construction, in scan order |
| Cex.EnabledExchangesSpec | src/services/providers/cex.ts:15-35 | the same, over the six supported ids |
| Cex.MissingCredentialDisables | src/services/providers/cex.ts:18-21 | an exchange missing either `<ID>_API_KEY` or `<ID>_API_SECRET` is never enabled |
| Cex.EntryRecordsSpec | src/services/providers/cex.ts:54-71 | a record is produced iff its code is a target, its amount is a positive number, it is `cex`/`cex` and it carries the exchange's source name |
| Cex.TargetsAreConfiguredOrJpy | src/services/providers/cex.ts:45-47 | the targets are the configured symbols and `JPY` |
| Cex.CexBalancesShape | src/services/providers/cex.ts:41-78 | no exchange, no record; every record is a positive target holding named after one of the enabled exchanges |
| Cex.FailedExchangeSkipped | src/services/providers/cex.ts:72-74 | an exchange whose `fetchBalance` throws adds nothing, and the others are still read |
| Bitpoint.SplitLines | src/services/providers/bitpointCsv.ts:38 | one line per `\n`-separated piece |
| Bitpoint.TrimAll | src/services/providers/bitpointCsv.ts:38 | each line is trimmed, in order |
| Bitpoint.NonEmptyLines | src/services/providers/bitpointCsv.ts:38 | the kept lines are non-empty and neither start nor end with whitespace |
| Bitpoint.HeaderIndex | src/services/providers/bitpointCsv.ts:46 | `findIndex` gives the first line starting with `No,`, or none exists |
| Bitpoint.IndexColumns | src/services/providers/bitpointCsv.ts:64-71 | the header loop builds `ColumnIndex` of the trimmed header names |
| Bitpoint.ColumnIndexKeys | src/services/providers/bitpointCsv.ts:64-71 | a name gets an index iff it matches `^[A-Z0-9][A-Z0-9()]*$`, is not `No`, and is some column's name |
| Bitpoint.ColumnIndexLast | src/services/providers/bitpointCsv.ts:64-71 | the index of a name is the last column carrying it |
| Bitpoint.NoIsNotASymbolColumn | src/services/providers/bitpointCsv.ts:68-69 | `No` already fails the pattern, so the explicit `No` test never excludes anything |
| Bitpoint.DigitRun | src/services/providers/bitpointCsv.ts:85 | the leading digit run is all digits and is maximal |
| Bitpoint.ScanNumeral | src/services/providers/bitpointCsv.ts:85 | a scanned numeral's integer and fraction parts are digits |
| Bitpoint.ParseFloatDigits | src/services/providers/bitpointCsv.ts:85 | `parseFloat` of a run of digits is its decimal value |
| Bitpoint.ParseFloatNat | src/services/providers/bitpointCsv.ts:85 | `parseFloat` reads back the decimal numeral of any natural number |
| Bitpoint.ParseFloatNoDigits | src/services/providers/bitpointCsv.ts:85-88 | a text without a leading digit, sign or dot (such as `Infinity` or `abc`) is not a finite number |
| Bitpoint.ParseFloatNoExponent | src/services/providers/bitpointCsv.ts:85 | a numeral without exponent reads as its integer digits plus its fraction digits |
| Bitpoint.ParseFloatIgnoresTail | src/services/providers/bitpointCsv.ts:85 | text after the numeral that is not an exponent is ignored |
| Bitpoint.FetchBalances | src/services/providers/bitpointCsv.ts:23-104 | the method's result, or what it throws, is `BitpointBalances` |
| Bitpoint.EmitRecords | src/services/providers/bitpointCsv.ts:80-97 | the target loop pushes `RecordsFor` |
| Bitpoint.TrimAllIgnoresCr | src/services/providers/bitpointCsv.ts:38 | line by line, trimming the lines of a `\r?\n` split gives the trimmed lines of a `\n` split |
| Bitpoint.LinesIgnoreCr | src/services/providers/bitpointCsv.ts:38 | splitting on `\r?\n` then trimming is splitting on `\n` then trimming: CRLF and LF files give the same lines |
| Bitpoint.TrimDropCr | src/services/providers/bitpointCsv.ts:38 | a `\r` before a line break never survives the trim |
| Bitpoint.StatementSpec | src/services/providers/bitpointCsv.ts:46-56 | a statement is found iff some kept line starts with `No,`; its cells are the comma pieces of the first such line and of the last line (possibly the header itself) |
| Bitpoint.BitpointEmptyCases | src/services/providers/bitpointCsv.ts:26-50 | an empty path, a missing file, no kept line or no `No,` line gives no record |
| Bitpoint.BitpointThrowsOnlyOnRead | src/services/providers/bitpointCsv.ts:31-37 | `fetchBalances` throws iff the path is set and the file exists but cannot be read, and it throws the reader's error |
| Bitpoint.RecordsForSpec | src/services/providers/bitpointCsv.ts:80-97 | one record per symbol with a column, in symbol order, with the amount of its cell |
| Bitpoint.BitpointRecordsNamed | src/services/providers/bitpointCsv.ts:90-96 | every record of a statement that is read, whatever the file holds, is a `cex` holding on chain `cex` under the reader's source name |
| Bitpoint.BitpointRecordsSpec | src/services/providers/bitpointCsv.ts:55-97 | a readable statement gives exactly one record per distinct configured symbol with a column, in configuration order, zero amounts included, each `cex`/`cex` under the source name |
| Bitpoint.BitpointSymbolsSpec | src/services/providers/bitpointCsv.ts:61-82 | a configured symbol is reported iff it has a column, and no symbol twice |
| Bitpoint.CellAmountFallback | src/services/providers/bitpointCsv.ts:84-88 | a missing, empty or non-finite cell counts as 0 |
| Providers.FetchBalances | src/services/providers/interface.ts:3-5 | constructing a provider and calling `fetchBalances` gives `Fetch` |
| Providers.StatementReaderNamed | src/services/providers/bitpointCsv.ts:16-19 | a reader built as `new BitpointCsvProvider(path)` reports every holding under the source name `BITPOINT`, as a `cex` holding |
| Providers.FetchThrowsOnlyOnRead | src/services/providers/bitpointCsv.ts:37 | of all providers, only a statement reader with an unreadable file throws |
| Providers.RoutingOverlap | src/services/providers/solana.ts:46 | an address starting with `1` or `3` whose length is between 31 and 49 passes both the Bitcoin filter (bitcoin.ts:13) and the Solana filter, and not the EVM one |
| Sorting.InsertPermutes | src/services/aggregator.ts:84 | one insertion adds exactly the inserted element |
| Sorting.StableSortPermutes | src/services/aggregator.ts:84 | the sort output is a permutation of its input |
| Sorting.InsertSorted | src/services/aggregator.ts:84 | inserting into a sorted list keeps it sorted under a strict weak order |
| Sorting.StableSortSorted | src/services/aggregator.ts:84 | under a strict weak order no element follows one it should precede |
| Sorting.RankRunInsert | src/services/aggregator.ts:84 | an insertion appends the element to its rank's run and leaves the other runs unchanged |
| Sorting.StableSortKeepsRankOrder | src/services/aggregator.ts:84 | stability: elements of equal rank keep their input order |
| Sorting.SortInPlace | src/services/aggregator.ts:84 | the in-place insertion sort leaves the array equal to `StableSort` of its old contents |
| Sorting.InsertNext | src/services/aggregator.ts:84 | one pass inserts `a[i]` into the sorted prefix and leaves the suffix unchanged |
| Sorting.InsertAfterRun | src/services/aggregator.ts:84 | the insertion point is just after the last element that is not greater |
| Types.SumAmountsAppend | src/services/aggregator.ts:60 | the total of concatenated records is the sum of the totals |
| Aggregator.FetchedPrefixThrows | src/services/aggregator.ts:18-21 | once a provider throws, later providers do not matter |
| Aggregator.FetchAll | src/services/aggregator.ts:18-21 | the provider loop builds `Fetched` |
| Aggregator.FetchedSucceeds | src/services/aggregator.ts:18-21 | the records are gathered iff no provider throws |
| Aggregator.FetchedConcatenates | src/services/aggregator.ts:18-21 | the records are every provider's records, concatenated in provider order |
| Aggregator.FetchedRejects | src/services/aggregator.ts:18-21 | a rejection carries the error of the first provider that throws |
| Aggregator.Group | src/services/aggregator.ts:39-43 | the grouping loop builds `Grouped`, and the map's key order is the order of first records |
| Aggregator.GroupedSpec | src/services/aggregator.ts:39-43 | a symbol has a group iff it has a record, and its group is exactly its records in order |
| Aggregator.BalanceSymbolsSpec | src/services/aggregator.ts:39-43 | a symbol is among the records' symbols iff it has a record |
| Aggregator.UniverseDistinct | src/services/aggregator.ts:48 | the symbol universe lists each symbol once |
| Aggregator.UniverseOrder | src/services/aggregator.ts:48 | configured symbols come first, in configuration order, then unconfigured symbols in the order of their first record |
| Aggregator.UniverseMembership | src/services/aggregator.ts:48 | a symbol is in the universe iff it is configured or has a record |
| Aggregator.GroupLookup | src/services/aggregator.ts:55 | `grouped.get(symbol) \|\| []` is exactly the symbol's records |
| Aggregator.EntryOf | src/services/aggregator.ts:51-80 | one pass of the line loop, given the looked-up group, pushes the symbol's `Entry` |
| Aggregator.BuildEntries | src/services/aggregator.ts:51-81 | the loop over the universe pushes `Entries` |
| Aggregator.Aggregate | src/services/aggregator.ts:12-87 | `aggregate` resolves to the sorted report or rejects with the first provider error (`AggregateSpec`) |
| Aggregator.EntryForShape | src/services/aggregator.ts:51-80 | a symbol contributes at most one line, carrying that symbol |
| Aggregator.EntriesMembership | src/services/aggregator.ts:51-80 | a line is among the entries iff its symbol is listed and it is the line that symbol contributes |
| Aggregator.EntriesDistinct | src/services/aggregator.ts:51-80 | over a list without repeats, no two lines share a symbol |
| Aggregator.EntriesOnePerSymbol | src/services/aggregator.ts:48-80 | no two unsorted lines share a symbol |
| Aggregator.ReportOnePerSymbol | src/services/aggregator.ts:48-84 | no two lines of the sorted report share a symbol |
| Aggregator.ReportPermutes | src/services/aggregator.ts:84 | the report is a permutation of the unsorted lines |
| Aggregator.ReportMember | src/services/aggregator.ts:84 | a line is in the report iff it is among the unsorted lines |
| Aggregator.ReportLines | src/services/aggregator.ts:51-80 | every line: not JPY; details are its symbol's records; total is their sum; price is the table's (0 when absent); value is total × price; positive total or configured symbol |
| Aggregator.ReportEntry | src/services/aggregator.ts:51-80 | a report line is the line its symbol contributes |
| Aggregator.EntryFields | src/services/aggregator.ts:55-80 | the fields of a symbol's line, as in `ReportLines` |
| Aggregator.ReportSymbols | src/services/aggregator.ts:51-61 | a symbol has a line iff it is not JPY and is configured or its records sum to more than 0 |
| Aggregator.NoRecordNoDetails | src/services/aggregator.ts:55 | a symbol without a record has no details |
| Aggregator.ConfiguredWithoutRecords | src/services/aggregator.ts:58-61 | a configured symbol (not JPY) without any record still gets the line `(s, 0, [], price, 0)` |
| Aggregator.ByValueDescOrders | src/services/aggregator.ts:84 | the comparator `b.valueJpy - a.valueJpy` induces a strict weak order |
| Aggregator.ReportSorted | src/services/aggregator.ts:84 | the report is ordered by value, largest first |
| Aggregator.ReportStable | src/services/aggregator.ts:84 | lines of equal value keep their universe order |
| CsvExport.TotalRowsSpec | src/utils/csv.ts:31-40 | the totals file has one row per line, in report order, with amount = total and rate = price |
| CsvExport.ZeroRowRule | src/utils/csv.ts:60-70 | a line without details gives exactly one row: `wallet`, empty name and network, amount 0, value 0, at the line's price |
| CsvExport.DetailRowsRule | src/utils/csv.ts:72-80 | a line with details gives one row per detail; a missing network is `''`; value = amount × the line's price |
| CsvExport.DetailRowCount | src/utils/csv.ts:56-81 | the detail row count is the sum over lines of max(1, number of details) |
| CsvExport.EveryLineHasARow | src/utils/csv.ts:56-81 | a line whose details carry its symbol has a row with that symbol at its price |
| CsvExport.ExportDetail | src/utils/csv.ts:56-92 | the built rows, sorted in place, are `DetailFile` |
| CsvExport.AheadTotal | src/utils/csv.ts:84-92 | two rows tie under the comparator iff their symbol, name and network are equal |
| CsvExport.AheadTransitive | src/utils/csv.ts:84-92 | the three-key comparator is transitive |
| CsvExport.RowOrderIsWeak | src/utils/csv.ts:84-92 | when `localeCompare` is a strict total order, the three-key comparator is a strict weak order |
| CsvExport.DetailFileSorted | src/utils/csv.ts:84-92 | detail rows are ordered by symbol, then by name/address within a symbol, then by network |
| CsvExport.DetailFilePermutes | src/utils/csv.ts:56-92 | the sorted rows are a permutation of the built rows, and their count is the row count above |
| CsvExport.DetailFileStable | src/utils/csv.ts:84-92 | rows with equal keys keep the order in which they were built |
| CsvExport.ReportLineInDetailFile | src/utils/csv.ts:56-92 | every report line, zero balances included, has a row in the detail file with its symbol and price |

## Left out

- Console output, `WA_DEBUG` logging, the sleeps between requests (except the Solana retry delays, which are part of the retry result), and writing the CSV files: `writeCsvAsSjis`, csv-writer quoting, CRLF and Shift_JIS encoding are foreign calls and I/O.
- Floating point: amounts, prices and values are exact reals. `satoshis / 1e8`, `lamports / 1e9`, `formatUnits` + `parseFloat`, the sum of amounts and `total × price` are computed without rounding.
- Bitpoint.ParseFloat: reads a number too large for a double (such as `1e400`) as finite, where JavaScript gets `Infinity` and the source records 0. Rounding to the nearest double is not modelled.
- Aggregator.Aggregate: `prices.get(symbol) || 0` also maps a stored `NaN` to 0; prices here are never `NaN`.
- `localeCompare` is an abstract strict total order on strings. Locale collation, where two different strings can compare equal, is not modelled.
- `toUpperCase`/`toLowerCase` map ASCII letters only.
- The Solana parsed-account JSON is reduced to `(mint, uiAmount)` pairs. A missing `uiAmount` is not modelled.
- The `PublicKey` constructor is an input predicate: an invalid key throws before any query.
- JavaScript objects used as dictionaries (`addresses`, `chains`, `balance.total`) are lists of pairs. Keys keep their first textual position and the last value. The engine's move of integer-like keys to the front, and prototype keys such as `__proto__`, are not modelled.
- The statement file's encoding: the text is taken as already decoded.
- The wiring in `src/index.ts` is not part of this model: the command-line options, reading `wallets.txt`, choosing the providers and the `--bitpoint-csv` / `BITPOINT_CSV_PATH` gate. The configuration loader (`src/config/loader.ts`) is not part of this model either. `Aggregate` takes the configured tokens and an arbitrary list of providers.
- The price request is one input: its response body, or `None` when it throws. The URL and query parameters other than `ids` are not modelled.
- The exchange library (ccxt) is an input: for each id, whether a class exists and whether constructing it throws. `fetchBalance` is an input per exchange id.
- The constructor of `PriceService` seeds a cache that `fetchPrices` never reads; it is not modelled.
