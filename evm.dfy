/**
 * The EVM provider (src/services/providers/evm.ts): for every configured token
 * it picks the supported chains to query, reads each `0x` wallet's native or
 * ERC-20 balance there, scales it by the token's decimals, and reports the
 * positive ones. ERC-20 `decimals()` answers are cached per chain and
 * lower-cased contract address.
 *
 * The RPC clients are an input: for each call, the value it returns, or `None`
 * when it throws (for `decimals()`, also when the answer is not a finite
 * number).
 */
module Evm {
  import opened Common
  import opened Types

  /** The keys of the `chains` table, one client each. */
  const SupportedChains: seq<string> := ["ethereum", "bsc", "polygon", "astar", "base", "arbitrum", "optimism"]

  /** ERC-20 `decimals()` is optional; this is the usual value. */
  const DefaultDecimals: nat := 18

  /** `this.clients[chainName]` is set. */
  predicate HasClient(chain: string) {
    chain in SupportedChains
  }

  predicate IsEvmWallet(w: string) {
    StartsWith(w, "0x")
  }

  datatype EvmRpc = EvmRpc(
    nativeBalance: (string, string) -> Option<nat>,
    tokenBalance: (string, string, string) -> Option<nat>,
    decimals: (string, string) -> Option<nat>)

  // ---------------------------------------------------------------------------
  // Decimals
  // ---------------------------------------------------------------------------

  /** `${chainName}:${tokenAddress.toLowerCase()}` */
  function CacheKey(chain: string, address: string): string {
    chain + ":" + ToLower(address)
  }

  /** What `getErc20Decimals` returns (`None` for `null`) and the cache it leaves. */
  datatype Lookup = Lookup(result: Option<nat>, cache: map<string, nat>)

  /**
   * `getErc20Decimals`: a cached value is returned as is; otherwise the
   * contract is asked, and only an answer is cached. The cache only grows and
   * holds the key exactly when a value is returned.
   */
  function DecimalsLookup(cache: map<string, nat>, chain: string, address: string, rpc: EvmRpc): (r: Lookup)
    ensures forall k :: k in cache ==> k in r.cache && r.cache[k] == cache[k]
    ensures r.cache.Keys <= cache.Keys + {CacheKey(chain, address)}
    ensures r.result.Some? <==> CacheKey(chain, address) in r.cache
    ensures r.result.Some? ==> r.cache[CacheKey(chain, address)] == r.result.value
    ensures CacheKey(chain, address) !in cache && r.result.Some? ==> rpc.decimals(chain, address) == r.result
    ensures CacheKey(chain, address) !in cache && HasClient(chain) ==> r.result == rpc.decimals(chain, address)
    ensures CacheKey(chain, address) !in cache && !HasClient(chain) ==> r.result.None? && r.cache == cache
  {
    var cacheKey := CacheKey(chain, address);
    if cacheKey in cache then Lookup(Some(cache[cacheKey]), cache)
    else if !HasClient(chain) then Lookup(None, cache)
    else match rpc.decimals(chain, address)
      case None => Lookup(None, cache)
      case Some(d) => Lookup(Some(d), cache[cacheKey := d])
  }

  /** `token.decimals || 18` */
  function ConfigDecimals(token: TokenDef): nat {
    if token.decimals.Some? && token.decimals.value != 0 then token.decimals.value else DefaultDecimals
  }

  /** `formatUnits(amount, decimals)`, exactly. Positive exactly when the raw amount is. */
  function FormatUnits(amount: nat, decimals: nat): (r: real)
    ensures r > 0.0 <==> amount > 0
  {
    amount as real / Pow10(decimals) as real
  }

  // ---------------------------------------------------------------------------
  // Target chains
  // ---------------------------------------------------------------------------

  /** `token.addresses[chainName]`, when truthy. */
  function TokenAddress(token: TokenDef, chain: string): (r: Option<string>)
    ensures r.Some? ==> r.value != "" && Get(token.addresses, chain) == r
    ensures Get(token.addresses, chain).Some? && Get(token.addresses, chain).value != "" ==>
              r == Get(token.addresses, chain)
  {
    var a := Get(token.addresses, chain);
    if a.Some? && a.value != "" then a else None
  }

  /** `token.native && token.chains[chainName] === 'native'` */
  predicate IsNativeOn(token: TokenDef, chain: string) {
    token.native && Get(token.chains, chain) == Some("native")
  }

  function NativeEntry(token: TokenDef): string -> bool {
    c => Get(token.chains, c) == Some("native") && HasClient(c)
  }

  /** The supported chains `token.chains` marks `native`, in its order, when the token is native. */
  function NativeChains(token: TokenDef): seq<string> {
    if token.native then Filter(Keys(token.chains), NativeEntry(token)) else []
  }

  /** Appends each supported chain of `keys` not yet listed. */
  function AddChains(targets: seq<string>, keys: seq<string>): seq<string> {
    if keys == [] then targets
    else
      var acc := AddChains(targets, keys[..|keys| - 1]);
      var k := keys[|keys| - 1];
      if HasClient(k) && k !in acc then acc + [k] else acc
  }

  /** `targetChains`: native chains first, then chains of `addresses`. */
  function TargetChains(token: TokenDef): seq<string> {
    AddChains(NativeChains(token), Keys(token.addresses))
  }

  /** The two guarded loops that build `targetChains`. */
  method TargetChainsOf(token: TokenDef) returns (targetChains: seq<string>)
    ensures targetChains == TargetChains(token)
  {
    targetChains := [];
    if token.native {
      targetChains := NativeChainsOf(token);
    }
    ghost var natives := targetChains;
    var keys := Keys(token.addresses);
    for i := 0 to |keys|
      invariant targetChains == AddChains(natives, keys[..i])
    {
      var chainName := keys[i];
      assert keys[..i + 1][..i] == keys[..i];
      if HasClient(chainName) && chainName !in targetChains {
        targetChains := targetChains + [chainName];
      }
    }
    assert keys[..|keys|] == keys;
  }

  /** The loop over `Object.entries(token.chains)`. */
  method NativeChainsOf(token: TokenDef) returns (natives: seq<string>)
    requires token.native
    ensures natives == NativeChains(token)
  {
    natives := [];
    var entries := Keys(token.chains);
    for i := 0 to |entries|
      invariant natives == Filter(entries[..i], NativeEntry(token))
    {
      var chainName := entries[i];
      FilterStep(entries, i, NativeEntry(token));
      assert NativeEntry(token)(chainName) == (Get(token.chains, chainName) == Some("native") && HasClient(chainName));
      if Get(token.chains, chainName) == Some("native") && HasClient(chainName) {
        natives := natives + [chainName];
      }
    }
    assert entries[..|entries|] == entries;
  }

  lemma {:induction false} AddChainsSpec(targets: seq<string>, keys: seq<string>)
    requires NoDuplicates(targets)
    ensures NoDuplicates(AddChains(targets, keys))
    ensures |targets| <= |AddChains(targets, keys)| && AddChains(targets, keys)[..|targets|] == targets
    ensures forall c :: c in AddChains(targets, keys) <==> c in targets || (HasClient(c) && c in keys)
  {
    if keys != [] {
      var init := keys[..|keys| - 1];
      AddChainsSpec(targets, init);
      assert keys == init + [keys[|keys| - 1]];
    }
  }

  lemma KeysMembership(d: Dict, k: string)
    ensures k in Keys(d) <==> Get(d, k).Some?
  {
    if k in Keys(d) {
      var i :| 0 <= i < |Keys(d)| && Keys(d)[i] == k;
    }
  }

  /**
   * The chains queried for a token: no chain twice, only supported chains,
   * the native ones first in `chains` order, and a chain is queried iff it is
   * supported and either marked native for a native token or given an address.
   */
  lemma TargetChainsSpec(token: TokenDef)
    ensures NoDuplicates(TargetChains(token))
    ensures forall i :: 0 <= i < |TargetChains(token)| ==> HasClient(TargetChains(token)[i])
    ensures |NativeChains(token)| <= |TargetChains(token)|
    ensures TargetChains(token)[..|NativeChains(token)|] == NativeChains(token)
    ensures forall c :: c in TargetChains(token) <==>
              HasClient(c) && (IsNativeOn(token, c) || Get(token.addresses, c).Some?)
  {
    if token.native {
      FilterNoDuplicates(Keys(token.chains), NativeEntry(token));
    }
    AddChainsSpec(NativeChains(token), Keys(token.addresses));
    forall c ensures c in TargetChains(token) <==> HasClient(c) && (IsNativeOn(token, c) || Get(token.addresses, c).Some?) {
      KeysMembership(token.addresses, c);
      KeysMembership(token.chains, c);
      if token.native {
        FilterMembership(Keys(token.chains), NativeEntry(token), c);
      }
    }
    forall i | 0 <= i < |TargetChains(token)| ensures HasClient(TargetChains(token)[i]) {
      var c := TargetChains(token)[i];
      if token.native && c in NativeChains(token) {
        FilterMembership(Keys(token.chains), NativeEntry(token), c);
      }
    }
  }

  // ---------------------------------------------------------------------------
  // Balances
  // ---------------------------------------------------------------------------

  /** The records pushed so far and the decimals cache. */
  datatype EvmState = EvmState(balances: seq<Balance>, cache: map<string, nat>)

  /** `if (floatAmount > 0) balances.push(...)` */
  function Emit(s: EvmState, token: TokenDef, chain: string, wallet: string, amount: real): EvmState {
    if amount > 0.0 then EvmState(s.balances + [Balance(token.symbol, amount, Wallet, wallet, Some(chain))], s.cache)
    else s
  }

  /**
   * One wallet on one chain, inside its `try`: the native balance when the
   * chain is native for the token, otherwise the ERC-20 balance scaled by the
   * contract's decimals when known, else by the configured ones. A failing
   * call changes nothing.
   */
  function ObserveWallet(s: EvmState, token: TokenDef, chain: string, wallet: string, rpc: EvmRpc): EvmState {
    if IsNativeOn(token, chain) then
      match rpc.nativeBalance(chain, wallet)
      case None => s
      case Some(wei) => Emit(s, token, chain, wallet, FormatUnits(wei, ConfigDecimals(token)))
    else match TokenAddress(token, chain)
      case None => s
      case Some(address) =>
        match rpc.tokenBalance(chain, address, wallet)
        case None => s
        case Some(units) =>
          var look := DecimalsLookup(s.cache, chain, address, rpc);
          var decimals := if look.result.Some? then look.result.value else ConfigDecimals(token);
          Emit(EvmState(s.balances, look.cache), token, chain, wallet, FormatUnits(units, decimals))
  }

  function ObserveWallets(s: EvmState, token: TokenDef, chain: string, wallets: seq<string>, rpc: EvmRpc): EvmState {
    if wallets == [] then s
    else ObserveWallet(ObserveWallets(s, token, chain, wallets[..|wallets| - 1], rpc), token, chain, wallets[|wallets| - 1], rpc)
  }

  /** A chain with neither a truthy address nor a native mark is skipped. */
  function ObserveChain(s: EvmState, token: TokenDef, chain: string, wallets: seq<string>, rpc: EvmRpc): EvmState {
    if TokenAddress(token, chain).None? && !IsNativeOn(token, chain) then s
    else ObserveWallets(s, token, chain, wallets, rpc)
  }

  function ObserveChains(s: EvmState, token: TokenDef, chains: seq<string>, wallets: seq<string>, rpc: EvmRpc): EvmState {
    if chains == [] then s
    else ObserveChain(ObserveChains(s, token, chains[..|chains| - 1], wallets, rpc), token, chains[|chains| - 1], wallets, rpc)
  }

  function ObserveTokens(s: EvmState, tokens: seq<TokenDef>, wallets: seq<string>, rpc: EvmRpc): EvmState {
    if tokens == [] then s
    else
      var token := tokens[|tokens| - 1];
      ObserveChains(ObserveTokens(s, tokens[..|tokens| - 1], wallets, rpc), token, TargetChains(token), wallets, rpc)
  }

  /** The records and the cache `fetchBalances` leaves, starting from `cache`. */
  function EvmFetch(walletAddresses: seq<string>, tokens: seq<TokenDef>, rpc: EvmRpc, cache: map<string, nat>): EvmState {
    var evmWallets := Filter(walletAddresses, IsEvmWallet);
    if evmWallets == [] then EvmState([], cache)
    else ObserveTokens(EvmState([], cache), tokens, evmWallets, rpc)
  }

  class EvmProvider {
    const walletAddresses: seq<string>
    var tokenDecimalsCache: map<string, nat>

    constructor(walletAddresses: seq<string>)
      ensures this.walletAddresses == walletAddresses && tokenDecimalsCache == map[]
    {
      this.walletAddresses := walletAddresses;
      tokenDecimalsCache := map[];
    }

    method GetErc20Decimals(chainName: string, tokenAddress: string, rpc: EvmRpc) returns (decimals: Option<nat>)
      modifies this
      ensures Lookup(decimals, tokenDecimalsCache) == DecimalsLookup(old(tokenDecimalsCache), chainName, tokenAddress, rpc)
    {
      var cacheKey := CacheKey(chainName, tokenAddress);
      if cacheKey in tokenDecimalsCache {
        return Some(tokenDecimalsCache[cacheKey]);
      }
      if !HasClient(chainName) {
        return None;
      }
      var answer := rpc.decimals(chainName, tokenAddress);
      if answer.Some? {
        tokenDecimalsCache := tokenDecimalsCache[cacheKey := answer.value];
        return answer;
      }
      return None;
    }

    method FetchBalances(tokens: seq<TokenDef>, rpc: EvmRpc) returns (balances: seq<Balance>)
      modifies this
      ensures EvmState(balances, tokenDecimalsCache) == EvmFetch(walletAddresses, tokens, rpc, old(tokenDecimalsCache))
    {
      var evmWallets := Filter(walletAddresses, IsEvmWallet);
      if |evmWallets| == 0 {
        return [];
      }
      balances := [];
      ghost var start := EvmState([], tokenDecimalsCache);
      for i := 0 to |tokens|
        invariant EvmState(balances, tokenDecimalsCache) == ObserveTokens(start, tokens[..i], evmWallets, rpc)
      {
        var token := tokens[i];
        assert tokens[..i + 1][..i] == tokens[..i];
        var targetChains := TargetChainsOf(token);
        balances := FetchToken(balances, token, targetChains, evmWallets, rpc);
      }
      assert tokens[..|tokens|] == tokens;
    }

    /** The chain loop for one token. */
    method FetchToken(balances0: seq<Balance>, token: TokenDef, targetChains: seq<string>, evmWallets: seq<string>, rpc: EvmRpc)
      returns (balances: seq<Balance>)
      modifies this
      ensures EvmState(balances, tokenDecimalsCache)
           == ObserveChains(EvmState(balances0, old(tokenDecimalsCache)), token, targetChains, evmWallets, rpc)
    {
      balances := balances0;
      ghost var start := EvmState(balances0, tokenDecimalsCache);
      for j := 0 to |targetChains|
        invariant EvmState(balances, tokenDecimalsCache) == ObserveChains(start, token, targetChains[..j], evmWallets, rpc)
      {
        var chainName := targetChains[j];
        assert targetChains[..j + 1][..j] == targetChains[..j];
        var tokenAddress := TokenAddress(token, chainName);
        if tokenAddress.None? && !IsNativeOn(token, chainName) {
          continue;
        }
        balances := FetchChain(balances, token, chainName, evmWallets, rpc);
      }
      assert targetChains[..|targetChains|] == targetChains;
    }

    /** The wallet loop for one token on one chain. */
    method FetchChain(balances0: seq<Balance>, token: TokenDef, chainName: string, evmWallets: seq<string>, rpc: EvmRpc)
      returns (balances: seq<Balance>)
      modifies this
      ensures EvmState(balances, tokenDecimalsCache)
           == ObserveWallets(EvmState(balances0, old(tokenDecimalsCache)), token, chainName, evmWallets, rpc)
    {
      balances := balances0;
      ghost var start := EvmState(balances0, tokenDecimalsCache);
      for k := 0 to |evmWallets|
        invariant EvmState(balances, tokenDecimalsCache) == ObserveWallets(start, token, chainName, evmWallets[..k], rpc)
      {
        assert evmWallets[..k + 1][..k] == evmWallets[..k];
        balances := FetchWallet(balances, token, chainName, evmWallets[k], rpc);
      }
      assert evmWallets[..|evmWallets|] == evmWallets;
    }

    /** The `try` body for one wallet. */
    method FetchWallet(balances0: seq<Balance>, token: TokenDef, chainName: string, wallet: string, rpc: EvmRpc)
      returns (balances: seq<Balance>)
      modifies this
      ensures EvmState(balances, tokenDecimalsCache)
           == ObserveWallet(EvmState(balances0, old(tokenDecimalsCache)), token, chainName, wallet, rpc)
    {
      balances := balances0;
      var amount: nat;
      var decimals := ConfigDecimals(token);
      if IsNativeOn(token, chainName) {
        var wei := rpc.nativeBalance(chainName, wallet);
        if wei.None? {
          return;
        }
        amount := wei.value;
      } else {
        var tokenAddress := TokenAddress(token, chainName);
        if tokenAddress.None? {
          return;
        }
        var units := rpc.tokenBalance(chainName, tokenAddress.value, wallet);
        if units.None? {
          return;
        }
        amount := units.value;
        var contractDecimals := GetErc20Decimals(chainName, tokenAddress.value, rpc);
        if contractDecimals.Some? {
          decimals := contractDecimals.value;
        }
      }
      var floatAmount := FormatUnits(amount, decimals);
      if floatAmount > 0.0 {
        balances := balances + [Balance(token.symbol, floatAmount, Wallet, wallet, Some(chainName))];
      }
    }
  }

  // ---------------------------------------------------------------------------
  // Properties
  // ---------------------------------------------------------------------------

  /** `token.decimals || 18`: a missing or zero configured value means 18. */
  lemma ConfigDecimalsFallback(token: TokenDef)
    ensures token.decimals.None? || token.decimals == Some(0) ==> ConfigDecimals(token) == 18
    ensures token.decimals.Some? && token.decimals.value > 0 ==> ConfigDecimals(token) == token.decimals.value
  {
  }

  /** On a chain native for the token the native balance is read, with the configured decimals, even if an address is also given. */
  lemma NativeWins(s: EvmState, token: TokenDef, chain: string, wallet: string, rpc: EvmRpc, wei: nat)
    requires IsNativeOn(token, chain) && rpc.nativeBalance(chain, wallet) == Some(wei) && wei > 0
    ensures ObserveWallet(s, token, chain, wallet, rpc)
         == EvmState(s.balances + [Balance(token.symbol, FormatUnits(wei, ConfigDecimals(token)), Wallet, wallet, Some(chain))], s.cache)
  {
  }

  /** An ERC-20 balance is scaled by the contract's decimals when the lookup gives them, a contract 0 included. */
  lemma ContractDecimalsWin(s: EvmState, token: TokenDef, chain: string, wallet: string, rpc: EvmRpc,
                            address: string, units: nat, d: nat)
    requires !IsNativeOn(token, chain) && TokenAddress(token, chain) == Some(address)
    requires rpc.tokenBalance(chain, address, wallet) == Some(units) && units > 0
    requires DecimalsLookup(s.cache, chain, address, rpc).result == Some(d)
    ensures ObserveWallet(s, token, chain, wallet, rpc).balances
         == s.balances + [Balance(token.symbol, FormatUnits(units, d), Wallet, wallet, Some(chain))]
  {
  }

  /**
   * The first ERC-20 balance read for a contract on a chain with a client asks
   * the contract for its decimals, scales by the answer and caches it.
   */
  lemma ContractDecimalsFetched(s: EvmState, token: TokenDef, chain: string, wallet: string, rpc: EvmRpc,
                                address: string, units: nat, d: nat)
    requires !IsNativeOn(token, chain) && TokenAddress(token, chain) == Some(address)
    requires rpc.tokenBalance(chain, address, wallet) == Some(units) && units > 0
    requires CacheKey(chain, address) !in s.cache && HasClient(chain) && rpc.decimals(chain, address) == Some(d)
    ensures ObserveWallet(s, token, chain, wallet, rpc)
         == EvmState(s.balances + [Balance(token.symbol, FormatUnits(units, d), Wallet, wallet, Some(chain))],
                     s.cache[CacheKey(chain, address) := d])
  {
  }

  /**
   * When the decimals lookup gives nothing (no client, or the call failed), the
   * ERC-20 balance is scaled by the configured decimals and the cache is kept.
   */
  lemma ConfigDecimalsWhenLookupFails(s: EvmState, token: TokenDef, chain: string, wallet: string, rpc: EvmRpc,
                                      address: string, units: nat)
    requires !IsNativeOn(token, chain) && TokenAddress(token, chain) == Some(address)
    requires rpc.tokenBalance(chain, address, wallet) == Some(units) && units > 0
    requires DecimalsLookup(s.cache, chain, address, rpc).result.None?
    ensures ObserveWallet(s, token, chain, wallet, rpc)
         == EvmState(s.balances + [Balance(token.symbol, FormatUnits(units, ConfigDecimals(token)), Wallet, wallet, Some(chain))], s.cache)
  {
    var look := DecimalsLookup(s.cache, chain, address, rpc);
    assert look.cache == s.cache;
  }

  /** A failing balance call for one (token, chain, wallet) leaves records and cache as they were. */
  lemma FailedCallSkipped(s: EvmState, token: TokenDef, chain: string, wallet: string, rpc: EvmRpc)
    requires IsNativeOn(token, chain) ==> rpc.nativeBalance(chain, wallet).None?
    requires !IsNativeOn(token, chain) && TokenAddress(token, chain).Some? ==>
               rpc.tokenBalance(chain, TokenAddress(token, chain).value, wallet).None?
    ensures ObserveWallet(s, token, chain, wallet, rpc) == s
  {
  }

  /** Without a `0x` wallet nothing is reported and nothing is cached. */
  lemma NoEvmWallet(walletAddresses: seq<string>, tokens: seq<TokenDef>, rpc: EvmRpc, cache: map<string, nat>)
    requires forall i :: 0 <= i < |walletAddresses| ==> !IsEvmWallet(walletAddresses[i])
    ensures EvmFetch(walletAddresses, tokens, rpc, cache) == EvmState([], cache)
  {
    var w := Filter(walletAddresses, IsEvmWallet);
    if w != [] {
      FilterMembership(walletAddresses, IsEvmWallet, w[0]);
    }
  }

  /** `c2` keeps every entry of `c1`. */
  ghost predicate Extends(c2: map<string, nat>, c1: map<string, nat>) {
    forall k :: k in c1 ==> k in c2 && c2[k] == c1[k]
  }

  /** Every cached value is an answer some contract gave for that key. */
  ghost predicate CacheSound(cache: map<string, nat>, rpc: EvmRpc) {
    forall k :: k in cache ==> exists c, a :: CacheKey(c, a) == k && rpc.decimals(c, a) == Some(cache[k])
  }

  /** A reported holding: positive, in a wallet of the list, on a supported chain, of a configured symbol. */
  ghost predicate EvmRecord(tokens: seq<TokenDef>, wallets: seq<string>, b: Balance) {
    && b.amount > 0.0 && b.sourceType == Wallet && b.sourceName in wallets
    && b.chain.Some? && HasClient(b.chain.value) && b.symbol in Symbols(tokens)
  }

  ghost predicate Good(s: EvmState, tokens: seq<TokenDef>, wallets: seq<string>, rpc: EvmRpc) {
    (forall b :: b in s.balances ==> EvmRecord(tokens, wallets, b)) && CacheSound(s.cache, rpc)
  }

  lemma ObserveWalletGood(s: EvmState, tokens: seq<TokenDef>, token: TokenDef, chain: string,
                          wallets: seq<string>, wallet: string, rpc: EvmRpc)
    requires Good(s, tokens, wallets, rpc)
    requires token in tokens && HasClient(chain) && wallet in wallets
    ensures Good(ObserveWallet(s, token, chain, wallet, rpc), tokens, wallets, rpc)
    ensures Extends(ObserveWallet(s, token, chain, wallet, rpc).cache, s.cache)
    ensures |s.balances| <= |ObserveWallet(s, token, chain, wallet, rpc).balances|
    ensures ObserveWallet(s, token, chain, wallet, rpc).balances[..|s.balances|] == s.balances
  {
    var r := ObserveWallet(s, token, chain, wallet, rpc);
    assert token.symbol in Symbols(tokens);
    if !IsNativeOn(token, chain) && TokenAddress(token, chain).Some? {
      var address := TokenAddress(token, chain).value;
      var look := DecimalsLookup(s.cache, chain, address, rpc);
      forall k | k in look.cache
        ensures exists c, a :: CacheKey(c, a) == k && rpc.decimals(c, a) == Some(look.cache[k])
      {
        if k !in s.cache {
          assert k == CacheKey(chain, address);
        }
      }
    }
  }

  lemma {:induction false} ObserveWalletsGood(s: EvmState, tokens: seq<TokenDef>, token: TokenDef, chain: string,
                                              wallets: seq<string>, ws: seq<string>, rpc: EvmRpc)
    requires Good(s, tokens, wallets, rpc)
    requires token in tokens && HasClient(chain) && forall i :: 0 <= i < |ws| ==> ws[i] in wallets
    ensures Good(ObserveWallets(s, token, chain, ws, rpc), tokens, wallets, rpc)
    ensures Extends(ObserveWallets(s, token, chain, ws, rpc).cache, s.cache)
    ensures |s.balances| <= |ObserveWallets(s, token, chain, ws, rpc).balances|
    ensures ObserveWallets(s, token, chain, ws, rpc).balances[..|s.balances|] == s.balances
  {
    if ws != [] {
      var init := ws[..|ws| - 1];
      ObserveWalletsGood(s, tokens, token, chain, wallets, init, rpc);
      ObserveWalletGood(ObserveWallets(s, token, chain, init, rpc), tokens, token, chain, wallets, ws[|ws| - 1], rpc);
    }
  }

  lemma {:induction false} ObserveChainsGood(s: EvmState, tokens: seq<TokenDef>, token: TokenDef, chains: seq<string>,
                                             wallets: seq<string>, rpc: EvmRpc)
    requires Good(s, tokens, wallets, rpc)
    requires token in tokens && forall i :: 0 <= i < |chains| ==> HasClient(chains[i])
    ensures Good(ObserveChains(s, token, chains, wallets, rpc), tokens, wallets, rpc)
    ensures Extends(ObserveChains(s, token, chains, wallets, rpc).cache, s.cache)
    ensures |s.balances| <= |ObserveChains(s, token, chains, wallets, rpc).balances|
    ensures ObserveChains(s, token, chains, wallets, rpc).balances[..|s.balances|] == s.balances
  {
    if chains != [] {
      var init := chains[..|chains| - 1];
      ObserveChainsGood(s, tokens, token, init, wallets, rpc);
      ObserveWalletsGood(ObserveChains(s, token, init, wallets, rpc), tokens, token, chains[|chains| - 1], wallets, wallets, rpc);
    }
  }

  lemma {:induction false} ObserveTokensGood(s: EvmState, tokens: seq<TokenDef>, ts: seq<TokenDef>,
                                             wallets: seq<string>, rpc: EvmRpc)
    requires Good(s, tokens, wallets, rpc)
    requires forall i :: 0 <= i < |ts| ==> ts[i] in tokens
    ensures Good(ObserveTokens(s, ts, wallets, rpc), tokens, wallets, rpc)
    ensures Extends(ObserveTokens(s, ts, wallets, rpc).cache, s.cache)
    ensures |s.balances| <= |ObserveTokens(s, ts, wallets, rpc).balances|
    ensures ObserveTokens(s, ts, wallets, rpc).balances[..|s.balances|] == s.balances
  {
    if ts != [] {
      var init := ts[..|ts| - 1];
      var token := ts[|ts| - 1];
      ObserveTokensGood(s, tokens, init, wallets, rpc);
      TargetChainsSpec(token);
      ObserveChainsGood(ObserveTokens(s, init, wallets, rpc), tokens, token, TargetChains(token), wallets, rpc);
    }
  }

  /**
   * Every record is a positive holding of a configured symbol in a `0x` wallet
   * of the list, on a supported chain. The cache keeps every entry it had and
   * gains only answers the contracts gave.
   */
  lemma EvmFetchSpec(walletAddresses: seq<string>, tokens: seq<TokenDef>, rpc: EvmRpc, cache: map<string, nat>)
    requires CacheSound(cache, rpc)
    ensures var r := EvmFetch(walletAddresses, tokens, rpc, cache);
      && (forall b :: b in r.balances ==> EvmRecord(tokens, walletAddresses, b) && IsEvmWallet(b.sourceName))
      && Extends(r.cache, cache) && CacheSound(r.cache, rpc)
  {
    var evmWallets := Filter(walletAddresses, IsEvmWallet);
    if evmWallets != [] {
      ObserveTokensGood(EvmState([], cache), tokens, tokens, evmWallets, rpc);
      var r := EvmFetch(walletAddresses, tokens, rpc, cache);
      forall b | b in r.balances ensures EvmRecord(tokens, walletAddresses, b) && IsEvmWallet(b.sourceName) {
        FilterMembership(walletAddresses, IsEvmWallet, b.sourceName);
      }
    }
  }
}
