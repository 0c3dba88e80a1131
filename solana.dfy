/**
 * The Solana provider (src/services/providers/solana.ts): the rate-limit retry
 * policy `withRetry`, the wallet filter, and the SOL and SPL-token records
 * built for each wallet, with a failure confined to its own wallet.
 *
 * The RPC connection is an input. Each remote operation is given as the
 * sequence of outcomes its successive attempts produce (attempt 0, 1, ...),
 * so a retry sees the next outcome; the sleeps are recorded as a list of
 * requested delays in milliseconds.
 */
module Solana {
  import opened Common
  import opened Types

  const MaxRetries: nat := 5
  const InitialDelay: nat := 1000
  const LamportsPerSol: nat := 1_000_000_000

  /** `error.message && error.message.includes('429')` */
  predicate IsRateLimit<T>(o: Outcome<T>) {
    o.Threw? && Contains(o.message, "429")
  }

  /** `n` sleeps starting at `delay`, each twice the previous one. */
  function Doublings(delay: nat, n: nat): (ds: seq<nat>)
    ensures |ds| == n
    decreases n
  {
    if n == 0 then [] else [delay] + Doublings(2 * delay, n - 1)
  }

  /** What `withRetry` returns (or throws), and the delays it slept before that. */
  datatype RetryRun<T> = RetryRun(outcome: Outcome<T>, delays: seq<nat>)

  /** `withRetry` entered with `retries` retries already made and the next delay `delay`. */
  function RetryFrom<T>(op: nat -> Outcome<T>, retries: nat, delay: nat): (r: RetryRun<T>)
    requires retries <= MaxRetries
    ensures retries + |r.delays| <= MaxRetries
    decreases MaxRetries - retries
  {
    var o := op(retries);
    if o.Succeeded? || !IsRateLimit(o) || retries == MaxRetries then RetryRun(o, [])
    else
      var rest := RetryFrom(op, retries + 1, delay * 2);
      RetryRun(rest.outcome, [delay] + rest.delays)
  }

  /**
   * A run of `n` retries sleeps `delay, 2 delay, ...`, each after a
   * rate-limited attempt, and ends with the `n`-th next attempt's own outcome:
   * a success, an error that is not a rate limit, or the rate limit that finds
   * the retries used up.
   */
  lemma {:induction false} RetryFromSpec<T>(op: nat -> Outcome<T>, retries: nat, delay: nat)
    requires retries <= MaxRetries
    ensures var r := RetryFrom(op, retries, delay);
      && r.delays == Doublings(delay, |r.delays|)
      && (forall k :: retries <= k < retries + |r.delays| ==> IsRateLimit(op(k)))
      && r.outcome == op(retries + |r.delays|)
      && (r.outcome.Succeeded? || !IsRateLimit(r.outcome) || retries + |r.delays| == MaxRetries)
    decreases MaxRetries - retries
  {
    var o := op(retries);
    var r := RetryFrom(op, retries, delay);
    if o.Succeeded? || !IsRateLimit(o) || retries == MaxRetries {
      assert r == RetryRun(o, []);
    } else {
      RetryFromSpec(op, retries + 1, delay * 2);
      var rest := RetryFrom(op, retries + 1, delay * 2);
      assert r == RetryRun(rest.outcome, [delay] + rest.delays);
      assert [delay] + rest.delays == Doublings(delay, 1 + |rest.delays|);
      forall k | retries <= k < retries + |r.delays| ensures IsRateLimit(op(k)) {
        if k > retries {
          assert retries + 1 <= k < retries + 1 + |rest.delays|;
        }
      }
    }
  }

  /** `withRetry(operation)` */
  function Retry<T>(op: nat -> Outcome<T>): (r: RetryRun<T>)
    ensures |r.delays| <= MaxRetries
  {
    RetryFrom(op, 0, InitialDelay)
  }

  /**
   * `withRetry` makes at most `MaxRetries` retries, each only after a rate
   * limit, sleeping 1000 ms and doubling on every retry; whatever ends the run
   * is returned or rethrown unchanged.
   */
  lemma RetrySpec<T>(op: nat -> Outcome<T>)
    ensures var r := Retry(op);
      && |r.delays| <= MaxRetries
      && r.delays == Doublings(InitialDelay, |r.delays|)
      && (forall k :: 0 <= k < |r.delays| ==> IsRateLimit(op(k)))
      && r.outcome == op(|r.delays|)
      && (r.outcome.Succeeded? || !IsRateLimit(r.outcome) || |r.delays| == MaxRetries)
  {
    RetryFromSpec(op, 0, InitialDelay);
  }

  function Pow2(k: nat): nat {
    if k == 0 then 1 else 2 * Pow2(k - 1)
  }

  /** The `k`-th sleep is `delay * 2^k`. */
  lemma {:induction false} DoublingsAt(delay: nat, n: nat, k: nat)
    requires k < n
    ensures Doublings(delay, n)[k] == delay * Pow2(k)
    decreases k
  {
    if k > 0 {
      DoublingsAt(2 * delay, n - 1, k - 1);
      assert 2 * delay * Pow2(k - 1) == delay * (2 * Pow2(k - 1));
    }
  }

  /** The `while (true)` loop of `withRetry`. */
  method WithRetry<T>(op: nat -> Outcome<T>) returns (outcome: Outcome<T>, delays: seq<nat>)
    ensures RetryRun(outcome, delays) == Retry(op)
  {
    var retries: nat := 0;
    var delay: nat := InitialDelay;
    delays := [];
    while true
      invariant retries <= MaxRetries
      invariant Retry(op).outcome == RetryFrom(op, retries, delay).outcome
      invariant Retry(op).delays == delays + RetryFrom(op, retries, delay).delays
      decreases MaxRetries - retries
    {
      var attempt := op(retries);
      if attempt.Succeeded? {
        assert RetryFrom(op, retries, delay) == RetryRun(attempt, []);
        return attempt, delays;
      }
      if Contains(attempt.message, "429") {
        if retries >= MaxRetries {
          assert RetryFrom(op, retries, delay) == RetryRun(attempt, []);
          return attempt, delays;
        }
        ghost var rest := RetryFrom(op, retries + 1, delay * 2);
        assert RetryFrom(op, retries, delay) == RetryRun(rest.outcome, [delay] + rest.delays);
        assert delays + ([delay] + rest.delays) == (delays + [delay]) + rest.delays;
        delays := delays + [delay];
        retries := retries + 1;
        delay := delay * 2;
      } else {
        assert RetryFrom(op, retries, delay) == RetryRun(attempt, []);
        return attempt, delays;
      }
    }
  }

  /**
   * Rate limits on the first `n` attempts and anything else on the next: that
   * attempt's outcome, a success or an error without "429", is the result,
   * after `n` doubling sleeps. With `n == 0` nothing is retried or slept.
   */
  lemma RetryEndsAtFirstOtherOutcome<T>(op: nat -> Outcome<T>, n: nat)
    requires n <= MaxRetries
    requires forall k :: 0 <= k < n ==> IsRateLimit(op(k))
    requires !IsRateLimit(op(n))
    ensures Retry(op) == RetryRun(op(n), Doublings(InitialDelay, n))
  {
    RetrySpec(op);
    assert |Retry(op).delays| == n;
  }

  /** Two rate limits then a success: the value comes back after sleeping 1000 and 2000 ms. */
  lemma RetryAfterTwoRateLimits<T>(op: nat -> Outcome<T>, v: T)
    requires IsRateLimit(op(0)) && IsRateLimit(op(1)) && op(2) == Succeeded(v)
    ensures Retry(op) == RetryRun(Succeeded(v), [1000, 2000])
  {
    assert RetryFrom(op, 2, 4000) == RetryRun(Succeeded(v), []);
    assert RetryFrom(op, 1, 2000) == RetryRun(Succeeded(v), [2000]);
  }

  /** Six rate limits in a row: the sixth is rethrown after five sleeps of 1, 2, 4, 8 and 16 seconds. */
  lemma RetryGivesUpAfterFive<T>(op: nat -> Outcome<T>)
    requires forall k :: 0 <= k <= MaxRetries ==> IsRateLimit(op(k))
    ensures Retry(op) == RetryRun(op(5), [1000, 2000, 4000, 8000, 16000])
  {
    RetrySpec(op);
    var r := Retry(op);
    assert |r.delays| == 5;
  }

  // ---------------------------------------------------------------------------
  // fetchBalances
  // ---------------------------------------------------------------------------

  datatype TokenAccount = TokenAccount(mint: string, uiAmount: real)

  /**
   * The connection: whether `new PublicKey(wallet)` accepts the address, and
   * for each wallet the outcomes of successive `getBalance` (lamports) and
   * `getParsedTokenAccountsByOwner` attempts.
   */
  datatype SolanaRpc = SolanaRpc(
    isPublicKey: string -> bool,
    getBalance: string -> nat -> Outcome<int>,
    getTokenAccounts: string -> nat -> Outcome<seq<TokenAccount>>)

  /** Base58-looking addresses: not `0x`, length strictly between 30 and 50, not `bc1`. */
  predicate IsSolanaWallet(w: string) {
    !StartsWith(w, "0x") && 30 < |w| < 50 && !StartsWith(w, "bc1")
  }

  /** `tokens.find(t => t.addresses && t.addresses['solana'] === mint)` */
  function MintToken(tokens: seq<TokenDef>, mint: string): (r: Option<TokenDef>)
    ensures r.Some? ==> r.value in tokens && Get(r.value.addresses, "solana") == Some(mint)
    ensures r.None? ==> forall i :: 0 <= i < |tokens| ==> Get(tokens[i].addresses, "solana") != Some(mint)
  {
    if tokens == [] then None
    else if Get(tokens[0].addresses, "solana") == Some(mint) then Some(tokens[0])
    else MintToken(tokens[1..], mint)
  }

  function WalletRecord(symbol: string, amount: real, wallet: string): Balance {
    Balance(symbol, amount, Wallet, wallet, Some("solana"))
  }

  /** What one token account contributes: a positive amount of a configured mint. */
  function AccountRecords(tokens: seq<TokenDef>, wallet: string, account: TokenAccount): seq<Balance> {
    if account.uiAmount <= 0.0 then []
    else match MintToken(tokens, account.mint)
      case None => []
      case Some(t) => [WalletRecord(t.symbol, account.uiAmount, wallet)]
  }

  function SplRecords(tokens: seq<TokenDef>, wallet: string, accounts: seq<TokenAccount>): seq<Balance> {
    if accounts == [] then []
    else SplRecords(tokens, wallet, accounts[..|accounts| - 1])
         + AccountRecords(tokens, wallet, accounts[|accounts| - 1])
  }

  function LamportsToSol(lamports: int): real {
    lamports as real / LamportsPerSol as real
  }

  /** The SOL part of a wallet: thrown, or the records it pushed (none unless SOL is configured). */
  function SolPart(tokens: seq<TokenDef>, rpc: SolanaRpc, wallet: string): Outcome<seq<Balance>> {
    if FindSymbol(tokens, "SOL").None? then Succeeded([])
    else match Retry(rpc.getBalance(wallet)).outcome
      case Threw(m) => Threw(m)
      case Succeeded(lamports) =>
        Succeeded(if LamportsToSol(lamports) > 0.0 then [WalletRecord("SOL", LamportsToSol(lamports), wallet)] else [])
  }

  /**
   * What one wallet leaves in `balances`: nothing if its key is rejected or
   * its SOL balance fails; its SOL record alone if listing its token accounts
   * fails; otherwise its SOL record and its SPL records.
   */
  function WalletRecords(tokens: seq<TokenDef>, rpc: SolanaRpc, wallet: string): seq<Balance> {
    if !rpc.isPublicKey(wallet) then []
    else
      var sol := SolPart(tokens, rpc, wallet);
      if sol.Threw? then []
      else match Retry(rpc.getTokenAccounts(wallet)).outcome
        case Threw(_) => sol.value
        case Succeeded(accounts) => sol.value + SplRecords(tokens, wallet, accounts)
  }

  function PerWallet(tokens: seq<TokenDef>, rpc: SolanaRpc): string -> seq<Balance> {
    w => WalletRecords(tokens, rpc, w)
  }

  /** The result of `fetchBalances`: the records of each filtered wallet, in wallet order. */
  function SolanaBalances(wallets: seq<string>, tokens: seq<TokenDef>, rpc: SolanaRpc): seq<Balance> {
    FlatMap(Filter(wallets, IsSolanaWallet), PerWallet(tokens, rpc))
  }

  /** The wallet loop of `fetchBalances`, each wallet inside its own `try`/`catch`. */
  method FetchBalances(wallets: seq<string>, tokens: seq<TokenDef>, rpc: SolanaRpc) returns (balances: seq<Balance>)
    ensures balances == SolanaBalances(wallets, tokens, rpc)
  {
    var solWallets := Filter(wallets, IsSolanaWallet);
    if |solWallets| == 0 {
      return [];
    }
    balances := [];
    for i := 0 to |solWallets|
      invariant balances == FlatMap(solWallets[..i], PerWallet(tokens, rpc))
    {
      assert solWallets[..i + 1][..i] == solWallets[..i];
      var pushed := FetchWallet(tokens, rpc, solWallets[i]);
      assert pushed == PerWallet(tokens, rpc)(solWallets[i]);
      balances := balances + pushed;
    }
    assert solWallets[..|solWallets|] == solWallets;
  }

  /** The body of the `try` for one wallet: the records it pushes before finishing or throwing. */
  method FetchWallet(tokens: seq<TokenDef>, rpc: SolanaRpc, wallet: string) returns (pushed: seq<Balance>)
    ensures pushed == WalletRecords(tokens, rpc, wallet)
  {
    if !rpc.isPublicKey(wallet) {
      return [];
    }
    var sol := FetchSol(tokens, rpc, wallet);
    if sol.Threw? {
      return [];
    }
    pushed := sol.value;
    var tokenAccounts, _ := WithRetry(rpc.getTokenAccounts(wallet));
    if tokenAccounts.Threw? {
      return;
    }
    var spl := CollectSpl(tokens, wallet, tokenAccounts.value);
    pushed := pushed + spl;
  }

  /** The SOL balance step: looks SOL up, queries the balance with retries, converts lamports. */
  method FetchSol(tokens: seq<TokenDef>, rpc: SolanaRpc, wallet: string) returns (sol: Outcome<seq<Balance>>)
    ensures sol == SolPart(tokens, rpc, wallet)
  {
    var solToken := FindSymbol(tokens, "SOL");
    if solToken.None? {
      return Succeeded([]);
    }
    var lamports, _ := WithRetry(rpc.getBalance(wallet));
    if lamports.Threw? {
      return Threw(lamports.message);
    }
    var floatAmount := LamportsToSol(lamports.value);
    if floatAmount > 0.0 {
      sol := Succeeded([WalletRecord("SOL", floatAmount, wallet)]);
    } else {
      sol := Succeeded([]);
    }
  }

  /** The token-account loop: positive amounts of configured mints, in account order. */
  method CollectSpl(tokens: seq<TokenDef>, wallet: string, accounts: seq<TokenAccount>) returns (pushed: seq<Balance>)
    ensures pushed == SplRecords(tokens, wallet, accounts)
  {
    pushed := [];
    for j := 0 to |accounts|
      invariant pushed == SplRecords(tokens, wallet, accounts[..j])
    {
      var account := accounts[j];
      assert accounts[..j + 1][..j] == accounts[..j];
      if account.uiAmount <= 0.0 {
        continue;
      }
      var matching := MintToken(tokens, account.mint);
      if matching.Some? {
        pushed := pushed + [WalletRecord(matching.value.symbol, account.uiAmount, wallet)];
      }
    }
    assert accounts[..|accounts|] == accounts;
  }

  // ---------------------------------------------------------------------------
  // Properties
  // ---------------------------------------------------------------------------

  /**
   * A wallet's failure stays with that wallet: the records of two wallet
   * lists fetched together are the records of each list, one after the other.
   */
  lemma SolanaBalancesAppend(a: seq<string>, b: seq<string>, tokens: seq<TokenDef>, rpc: SolanaRpc)
    ensures SolanaBalances(a + b, tokens, rpc) == SolanaBalances(a, tokens, rpc) + SolanaBalances(b, tokens, rpc)
  {
    FilterAppend(a, b, IsSolanaWallet);
    FlatMapAppend(Filter(a, IsSolanaWallet), Filter(b, IsSolanaWallet), PerWallet(tokens, rpc));
  }

  /** When listing the token accounts fails, the SOL record already pushed for the wallet stays. */
  lemma SolRecordSurvivesAccountFailure(tokens: seq<TokenDef>, rpc: SolanaRpc, wallet: string, lamports: int)
    requires rpc.isPublicKey(wallet) && FindSymbol(tokens, "SOL").Some?
    requires Retry(rpc.getBalance(wallet)).outcome == Succeeded(lamports) && lamports > 0
    requires Retry(rpc.getTokenAccounts(wallet)).outcome.Threw?
    ensures WalletRecords(tokens, rpc, wallet) == [WalletRecord("SOL", LamportsToSol(lamports), wallet)]
  {
  }

  /** A positive wallet holding on chain `solana`, of SOL or of a token with a `solana` address. */
  ghost predicate SolanaRecord(tokens: seq<TokenDef>, wallet: string, b: Balance) {
    && b.sourceType == Wallet && b.sourceName == wallet && b.chain == Some("solana") && b.amount > 0.0
    && ((b.symbol == "SOL" && "SOL" in Symbols(tokens))
        || exists t :: t in tokens && t.symbol == b.symbol && Get(t.addresses, "solana").Some?)
  }

  lemma {:induction false} SplRecordsShape(tokens: seq<TokenDef>, wallet: string, accounts: seq<TokenAccount>)
    ensures forall b :: b in SplRecords(tokens, wallet, accounts) ==> SolanaRecord(tokens, wallet, b)
  {
    if accounts != [] {
      SplRecordsShape(tokens, wallet, accounts[..|accounts| - 1]);
      var last := accounts[|accounts| - 1];
      var m := MintToken(tokens, last.mint);
      if last.uiAmount > 0.0 && m.Some? {
        assert SolanaRecord(tokens, wallet, WalletRecord(m.value.symbol, last.uiAmount, wallet));
      }
    }
  }

  lemma WalletRecordsShape(tokens: seq<TokenDef>, rpc: SolanaRpc, wallet: string)
    ensures forall b :: b in WalletRecords(tokens, rpc, wallet) ==> SolanaRecord(tokens, wallet, b)
  {
    if rpc.isPublicKey(wallet) && SolPart(tokens, rpc, wallet).Succeeded? {
      match Retry(rpc.getTokenAccounts(wallet)).outcome
      case Threw(_) =>
      case Succeeded(accounts) => SplRecordsShape(tokens, wallet, accounts);
    }
  }

  /**
   * Only wallets passing the filter are queried, and every record is a
   * positive holding of SOL (when configured) or of a token that has a
   * `solana` address, attributed to its wallet.
   */
  lemma SolanaBalancesShape(wallets: seq<string>, tokens: seq<TokenDef>, rpc: SolanaRpc)
    ensures forall b :: b in SolanaBalances(wallets, tokens, rpc) ==>
              b.sourceName in wallets && IsSolanaWallet(b.sourceName) && SolanaRecord(tokens, b.sourceName, b)
  {
    var solWallets := Filter(wallets, IsSolanaWallet);
    forall b | b in SolanaBalances(wallets, tokens, rpc)
      ensures b.sourceName in wallets && IsSolanaWallet(b.sourceName) && SolanaRecord(tokens, b.sourceName, b)
    {
      FlatMapMembership(solWallets, PerWallet(tokens, rpc), b);
      var i :| 0 <= i < |solWallets| && b in WalletRecords(tokens, rpc, solWallets[i]);
      WalletRecordsShape(tokens, rpc, solWallets[i]);
    }
  }

  /** An SPL account becomes a record under the symbol of the first token whose `solana` address is its mint. */
  lemma SplAccountUsesFirstMatch(tokens: seq<TokenDef>, wallet: string, account: TokenAccount, i: nat)
    requires account.uiAmount > 0.0
    requires i < |tokens| && Get(tokens[i].addresses, "solana") == Some(account.mint)
    requires forall k :: 0 <= k < i ==> Get(tokens[k].addresses, "solana") != Some(account.mint)
    ensures AccountRecords(tokens, wallet, account) == [WalletRecord(tokens[i].symbol, account.uiAmount, wallet)]
  {
    MintTokenFirst(tokens, account.mint, i);
  }

  lemma {:induction false} MintTokenFirst(tokens: seq<TokenDef>, mint: string, i: nat)
    requires i < |tokens| && Get(tokens[i].addresses, "solana") == Some(mint)
    requires forall k :: 0 <= k < i ==> Get(tokens[k].addresses, "solana") != Some(mint)
    ensures MintToken(tokens, mint) == Some(tokens[i])
  {
    if i > 0 {
      MintTokenFirst(tokens[1..], mint, i - 1);
    }
  }
}
