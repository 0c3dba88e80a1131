/**
 * The Bitcoin provider (src/services/providers/bitcoin.ts): routes addresses by
 * prefix and turns each address's confirmed funded-minus-spent satoshis into
 * a BTC holding.
 *
 * The block-explorer request is an input: for each address, the `chain_stats`
 * it returns, or the error it throws.
 */
module Bitcoin {
  import opened Common
  import opened Types

  const SatoshisPerBtc: nat := 100_000_000

  /** The confirmed totals of an address, in satoshis. */
  datatype ChainStats = ChainStats(fundedTxoSum: int, spentTxoSum: int)

  /** Legacy, script and bech32 addresses: starting with `1`, `3` or `bc1`. */
  predicate IsBitcoinWallet(w: string) {
    StartsWith(w, "1") || StartsWith(w, "3") || StartsWith(w, "bc1")
  }

  function SatoshisToBtc(stats: ChainStats): real {
    (stats.fundedTxoSum - stats.spentTxoSum) as real / SatoshisPerBtc as real
  }

  /** What one wallet contributes: its BTC holding when positive; nothing when the request fails. */
  function WalletRecords(api: string -> Outcome<ChainStats>, wallet: string): seq<Balance> {
    match api(wallet)
    case Threw(_) => []
    case Succeeded(stats) =>
      if SatoshisToBtc(stats) > 0.0 then [Balance("BTC", SatoshisToBtc(stats), Wallet, wallet, Some("bitcoin"))]
      else []
  }

  function PerWallet(api: string -> Outcome<ChainStats>): string -> seq<Balance> {
    w => WalletRecords(api, w)
  }

  /** The result of `fetchBalances`: nothing unless `BTC` is configured. */
  function BitcoinBalances(wallets: seq<string>, tokens: seq<TokenDef>, api: string -> Outcome<ChainStats>): seq<Balance> {
    if FindSymbol(tokens, "BTC").None? then []
    else FlatMap(Filter(wallets, IsBitcoinWallet), PerWallet(api))
  }

  /** The wallet loop of `fetchBalances`, each request inside its own `try`/`catch`. */
  method FetchBalances(wallets: seq<string>, tokens: seq<TokenDef>, api: string -> Outcome<ChainStats>)
    returns (balances: seq<Balance>)
    ensures balances == BitcoinBalances(wallets, tokens, api)
  {
    var btcWallets := Filter(wallets, IsBitcoinWallet);
    if |btcWallets| == 0 {
      return [];
    }
    var btcToken := FindSymbol(tokens, "BTC");
    if btcToken.None? {
      return [];
    }
    balances := [];
    for i := 0 to |btcWallets|
      invariant balances == FlatMap(btcWallets[..i], PerWallet(api))
    {
      var wallet := btcWallets[i];
      assert btcWallets[..i + 1][..i] == btcWallets[..i];
      var response := api(wallet);
      if response.Succeeded? {
        var floatAmount := SatoshisToBtc(response.value);
        if floatAmount > 0.0 {
          balances := balances + [Balance("BTC", floatAmount, Wallet, wallet, Some("bitcoin"))];
        }
      }
      assert balances == FlatMap(btcWallets[..i], PerWallet(api)) + PerWallet(api)(wallet);
    }
    assert btcWallets[..|btcWallets|] == btcWallets;
  }

  // ---------------------------------------------------------------------------
  // Properties
  // ---------------------------------------------------------------------------

  /** With `BTC` unconfigured, or no address routed here, nothing is reported. */
  lemma BitcoinBalancesEmpty(wallets: seq<string>, tokens: seq<TokenDef>, api: string -> Outcome<ChainStats>)
    requires "BTC" !in Symbols(tokens) || forall i :: 0 <= i < |wallets| ==> !IsBitcoinWallet(wallets[i])
    ensures BitcoinBalances(wallets, tokens, api) == []
  {
    if "BTC" in Symbols(tokens) {
      var btcWallets := Filter(wallets, IsBitcoinWallet);
      if btcWallets != [] {
        FilterMembership(wallets, IsBitcoinWallet, btcWallets[0]);
      }
    }
  }

  lemma {:induction false} FlatMapAtMostOne(ws: seq<string>, api: string -> Outcome<ChainStats>)
    ensures |FlatMap(ws, PerWallet(api))| <= |ws|
    ensures forall j :: 0 <= j < |FlatMap(ws, PerWallet(api))| ==>
              var b := FlatMap(ws, PerWallet(api))[j];
              && b.symbol == "BTC" && b.sourceType == Wallet && b.chain == Some("bitcoin") && b.amount > 0.0
              && b.sourceName in ws
              && api(b.sourceName).Succeeded? && b.amount == SatoshisToBtc(api(b.sourceName).value)
  {
    if ws != [] {
      FlatMapAtMostOne(ws[..|ws| - 1], api);
    }
  }

  /**
   * At most one record per routed address, each a positive BTC holding equal
   * to the address's funded minus spent satoshis over 10^8, on chain
   * `bitcoin`, attributed to the address.
   */
  lemma BitcoinBalancesShape(wallets: seq<string>, tokens: seq<TokenDef>, api: string -> Outcome<ChainStats>)
    ensures |BitcoinBalances(wallets, tokens, api)| <= |Filter(wallets, IsBitcoinWallet)|
    ensures forall b :: b in BitcoinBalances(wallets, tokens, api) ==>
              && b.symbol == "BTC" && b.sourceType == Wallet && b.chain == Some("bitcoin") && b.amount > 0.0
              && b.sourceName in wallets && IsBitcoinWallet(b.sourceName)
              && api(b.sourceName).Succeeded? && b.amount == SatoshisToBtc(api(b.sourceName).value)
  {
    var btcWallets := Filter(wallets, IsBitcoinWallet);
    FlatMapAtMostOne(btcWallets, api);
    forall b | b in BitcoinBalances(wallets, tokens, api)
      ensures b.sourceName in wallets && IsBitcoinWallet(b.sourceName)
    {
      FilterMembership(wallets, IsBitcoinWallet, b.sourceName);
    }
  }

  /** The wallets are read in order: the records of a list are those of its first part, then those of the rest. */
  lemma BitcoinBalancesAppend(a: seq<string>, b: seq<string>, tokens: seq<TokenDef>, api: string -> Outcome<ChainStats>)
    ensures BitcoinBalances(a + b, tokens, api) == BitcoinBalances(a, tokens, api) + BitcoinBalances(b, tokens, api)
  {
    if FindSymbol(tokens, "BTC").Some? {
      FilterAppend(a, b, IsBitcoinWallet);
      FlatMapAppend(Filter(a, IsBitcoinWallet), Filter(b, IsBitcoinWallet), PerWallet(api));
    }
  }

  /**
   * One address, with `BTC` configured and the address routed here, gives
   * exactly its holding when the request succeeds with a positive balance and
   * nothing otherwise; an address not routed here gives nothing.
   */
  lemma BitcoinBalancesSingle(w: string, tokens: seq<TokenDef>, api: string -> Outcome<ChainStats>)
    ensures BitcoinBalances([w], tokens, api)
         == if FindSymbol(tokens, "BTC").Some? && IsBitcoinWallet(w) && api(w).Succeeded?
              && SatoshisToBtc(api(w).value) > 0.0
            then [Balance("BTC", SatoshisToBtc(api(w).value), Wallet, w, Some("bitcoin"))]
            else []
  {
    assert [w][..0] == [];
    if IsBitcoinWallet(w) {
      assert Filter([w], IsBitcoinWallet) == [w];
      assert FlatMap([w], PerWallet(api)) == FlatMap([], PerWallet(api)) + WalletRecords(api, w);
    } else {
      assert Filter([w], IsBitcoinWallet) == [];
    }
  }

  /** A wallet whose request fails adds nothing, and the wallets after it are still fetched. */
  lemma FailedWalletSkipped(before: seq<string>, wallet: string, after: seq<string>,
                            tokens: seq<TokenDef>, api: string -> Outcome<ChainStats>)
    requires api(wallet).Threw?
    ensures BitcoinBalances(before + [wallet] + after, tokens, api)
         == BitcoinBalances(before, tokens, api) + BitcoinBalances(after, tokens, api)
  {
    FilterFlatMapSkip(before, wallet, after, IsBitcoinWallet, PerWallet(api));
  }
}
