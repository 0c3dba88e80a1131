/**
 * The provider abstraction (src/services/providers/interface.ts): every
 * provider answers `fetchBalances(tokens)`. The set of providers is closed, so
 * it is a datatype with one variant per provider, each holding its
 * configuration and the oracles standing for its remote calls.
 *
 * Only the statement reader can throw out of `fetchBalances` (its file read is
 * outside any `try`); every other provider catches its own failures.
 */
module Providers {
  import opened Common
  import opened Types
  import Evm
  import Solana
  import Bitcoin
  import Cex
  import Bitpoint

  datatype Provider =
    | EvmWallets(walletAddresses: seq<string>, rpc: Evm.EvmRpc)
    | SolanaWallets(walletAddresses: seq<string>, connection: Solana.SolanaRpc)
    | BitcoinWallets(walletAddresses: seq<string>, explorer: string -> Outcome<Bitcoin.ChainStats>)
    | Exchanges(env: Cex.Env, library: Cex.Library, fetchBalance: string -> Outcome<seq<(string, Option<real>)>>)
    | BitpointStatement(csvPath: string, file: Bitpoint.CsvFile, sourceName: string)

  /** What one freshly constructed provider's `fetchBalances` resolves to, or what it throws. */
  function Fetch(p: Provider, tokens: seq<TokenDef>): Outcome<seq<Balance>> {
    match p
    case EvmWallets(wallets, rpc) => Succeeded(Evm.EvmFetch(wallets, tokens, rpc, map[]).balances)
    case SolanaWallets(wallets, connection) => Succeeded(Solana.SolanaBalances(wallets, tokens, connection))
    case BitcoinWallets(wallets, api) => Succeeded(Bitcoin.BitcoinBalances(wallets, tokens, api))
    case Exchanges(env, library, api) => Succeeded(Cex.CexBalances(Cex.EnabledExchanges(env, library), tokens, api))
    case BitpointStatement(csvPath, file, sourceName) => Bitpoint.BitpointBalances(csvPath, file, tokens, sourceName)
  }

  /** Constructs the provider and calls its `fetchBalances`. */
  method FetchBalances(p: Provider, tokens: seq<TokenDef>) returns (r: Outcome<seq<Balance>>)
    ensures r == Fetch(p, tokens)
  {
    match p {
      case EvmWallets(wallets, rpc) =>
        var provider := new Evm.EvmProvider(wallets);
        var balances := provider.FetchBalances(tokens, rpc);
        r := Succeeded(balances);
      case SolanaWallets(wallets, connection) =>
        var balances := Solana.FetchBalances(wallets, tokens, connection);
        r := Succeeded(balances);
      case BitcoinWallets(wallets, api) =>
        var balances := Bitcoin.FetchBalances(wallets, tokens, api);
        r := Succeeded(balances);
      case Exchanges(env, library, api) =>
        var provider := new Cex.CexProvider(env, library);
        var balances := provider.FetchBalances(tokens, api);
        r := Succeeded(balances);
      case BitpointStatement(csvPath, file, sourceName) =>
        r := Bitpoint.FetchBalances(csvPath, file, tokens, sourceName);
    }
  }

  /** `new BitpointCsvProvider(path)`: the statement reader under its default source name. */
  function StatementReader(csvPath: string, file: Bitpoint.CsvFile): Provider {
    BitpointStatement(csvPath, file, Bitpoint.DefaultSourceName)
  }

  /** A statement reader built with the default name reports its holdings as `BITPOINT` exchange holdings. */
  lemma StatementReaderNamed(csvPath: string, file: Bitpoint.CsvFile, tokens: seq<TokenDef>)
    ensures Fetch(StatementReader(csvPath, file), tokens).Succeeded? ==>
              forall b :: b in Fetch(StatementReader(csvPath, file), tokens).value ==>
                b.sourceName == "BITPOINT" && b.sourceType == Cex
  {
    Bitpoint.BitpointRecordsNamed(csvPath, file, tokens, Bitpoint.DefaultSourceName);
  }

  /** Only a statement reader whose file cannot be read makes a provider throw. */
  lemma FetchThrowsOnlyOnRead(p: Provider, tokens: seq<TokenDef>)
    ensures Fetch(p, tokens).Threw? <==>
              p.BitpointStatement? && p.csvPath != "" && p.file.Unreadable?
  {
    if p.BitpointStatement? {
      Bitpoint.BitpointThrowsOnlyOnRead(p.csvPath, p.file, tokens, p.sourceName);
    }
  }

  /**
   * The address filters of the wallet providers overlap: an address starting
   * with `1` or `3` whose length is between 31 and 49 is queried both as a
   * Bitcoin and as a Solana wallet.
   */
  lemma RoutingOverlap(w: string)
    requires StartsWith(w, "1") || StartsWith(w, "3")
    requires 30 < |w| < 50
    ensures Bitcoin.IsBitcoinWallet(w) && Solana.IsSolanaWallet(w)
    ensures !Evm.IsEvmWallet(w)
  {
    assert w[0] == '1' || w[0] == '3';
  }
}
