/**
 * The exchange provider (src/services/providers/cex.ts): enables each
 * supported exchange whose key and secret are both set, then reports every
 * positive total balance whose currency code is a configured symbol or `JPY`.
 *
 * The environment is a map of variable names to values. The exchange library
 * is an input saying, for an exchange id, whether it has a class and what
 * constructing it gives (the exchange's display name, or a thrown error).
 * `fetchBalance` is an input giving each exchange's `total` entries in order,
 * an entry's amount being `None` when it is not a number.
 */
module Cex {
  import opened Common
  import opened Types

  const Supported: seq<string> := ["bitflyer", "coincheck", "bitbank", "liquid", "binance", "bybit"]

  /** An enabled exchange: its id and its display `name` (empty when unset). */
  datatype Exchange = Exchange(id: string, name: string)

  type Env = map<string, string>

  /** What the exchange library offers for an id: no class, or the outcome of `new exchangeClass(...)`. */
  type Library = string -> Option<Outcome<string>>

  /** `process.env[name]` is truthy. */
  predicate IsSet(env: Env, name: string) {
    name in env && env[name] != ""
  }

  function KeyVariable(id: string): string { ToUpper(id) + "_API_KEY" }

  function SecretVariable(id: string): string { ToUpper(id) + "_API_SECRET" }

  /** Both credentials are set, the library has the class, and constructing it succeeds. */
  predicate Enables(env: Env, library: Library, id: string) {
    IsSet(env, KeyVariable(id)) && IsSet(env, SecretVariable(id))
    && library(id).Some? && library(id).value.Succeeded?
  }

  /** The exchanges `initExchanges` pushes while scanning `ids`. */
  function EnabledFrom(env: Env, library: Library, ids: seq<string>): seq<Exchange> {
    if ids == [] then []
    else
      var id := ids[|ids| - 1];
      EnabledFrom(env, library, ids[..|ids| - 1])
      + (if Enables(env, library, id) then [Exchange(id, library(id).value.value)] else [])
  }

  function EnabledExchanges(env: Env, library: Library): seq<Exchange> {
    EnabledFrom(env, library, Supported)
  }

  function ExchangeIds(exchanges: seq<Exchange>): (ids: seq<string>)
    ensures |ids| == |exchanges| && forall i :: 0 <= i < |ids| ==> ids[i] == exchanges[i].id
  {
    seq(|exchanges|, i requires 0 <= i < |exchanges| => exchanges[i].id)
  }

  function EnablesIn(env: Env, library: Library): string -> bool {
    id => Enables(env, library, id)
  }

  /** `exchange.name || exchange.id` */
  function SourceName(ex: Exchange): string {
    if ex.name != "" then ex.name else ex.id
  }

  /** `targetSymbols.has(code) || code === 'JPY'`, the set holding the configured symbols and `JPY`. */
  predicate IsTarget(tokens: seq<TokenDef>, code: string) {
    code in Symbols(tokens) + [ValuationSymbol] || code == ValuationSymbol
  }

  /** The records one exchange's `total` entries give. */
  function EntryRecords(tokens: seq<TokenDef>, sourceName: string, entries: seq<(string, Option<real>)>): seq<Balance> {
    if entries == [] then []
    else
      var (code, amount) := entries[|entries| - 1];
      EntryRecords(tokens, sourceName, entries[..|entries| - 1])
      + (if IsTarget(tokens, code) && amount.Some? && amount.value > 0.0
         then [Balance(code, amount.value, Cex, sourceName, Some("cex"))] else [])
  }

  /** What one exchange contributes: nothing when its `fetchBalance` throws. */
  function ExchangeRecords(tokens: seq<TokenDef>, api: string -> Outcome<seq<(string, Option<real>)>>, ex: Exchange): seq<Balance> {
    match api(ex.id)
    case Threw(_) => []
    case Succeeded(entries) => EntryRecords(tokens, SourceName(ex), entries)
  }

  function PerExchange(tokens: seq<TokenDef>, api: string -> Outcome<seq<(string, Option<real>)>>): Exchange -> seq<Balance> {
    ex => ExchangeRecords(tokens, api, ex)
  }

  /** The result of `fetchBalances` over the enabled exchanges. */
  function CexBalances(exchanges: seq<Exchange>, tokens: seq<TokenDef>, api: string -> Outcome<seq<(string, Option<real>)>>): seq<Balance> {
    FlatMap(exchanges, PerExchange(tokens, api))
  }

  class CexProvider {
    var exchanges: seq<Exchange>

    /** The constructor and `initExchanges`. */
    constructor(env: Env, library: Library)
      ensures exchanges == EnabledExchanges(env, library)
    {
      var enabled := [];
      for i := 0 to |Supported|
        invariant enabled == EnabledFrom(env, library, Supported[..i])
      {
        var exId := Supported[i];
        assert Supported[..i + 1][..i] == Supported[..i];
        var apiKey := KeyVariable(exId);
        var secret := SecretVariable(exId);
        if IsSet(env, apiKey) && IsSet(env, secret) && library(exId).Some? {
          var constructed := library(exId).value;
          if constructed.Succeeded? {
            enabled := enabled + [Exchange(exId, constructed.value)];
          }
        }
      }
      assert Supported[..|Supported|] == Supported;
      exchanges := enabled;
    }

    /** The exchange and entry loops of `fetchBalances`, each exchange inside its own `try`/`catch`. */
    method FetchBalances(tokens: seq<TokenDef>, api: string -> Outcome<seq<(string, Option<real>)>>)
      returns (balances: seq<Balance>)
      ensures balances == CexBalances(exchanges, tokens, api)
    {
      if |exchanges| == 0 {
        return [];
      }
      balances := [];
      for i := 0 to |exchanges|
        invariant balances == FlatMap(exchanges[..i], PerExchange(tokens, api))
      {
        var exchange := exchanges[i];
        assert exchanges[..i + 1][..i] == exchanges[..i];
        var balance := api(exchange.id);
        if balance.Succeeded? {
          var pushed := CollectEntries(tokens, SourceName(exchange), balance.value);
          balances := balances + pushed;
        }
        assert balances == FlatMap(exchanges[..i], PerExchange(tokens, api)) + PerExchange(tokens, api)(exchange);
      }
      assert exchanges[..|exchanges|] == exchanges;
    }
  }

  /** The loop over `Object.entries(balance.total)`. */
  method CollectEntries(tokens: seq<TokenDef>, sourceName: string, entries: seq<(string, Option<real>)>)
    returns (pushed: seq<Balance>)
    ensures pushed == EntryRecords(tokens, sourceName, entries)
  {
    var targetSymbols := Symbols(tokens) + [ValuationSymbol];
    pushed := [];
    for j := 0 to |entries|
      invariant pushed == EntryRecords(tokens, sourceName, entries[..j])
    {
      var (code, amount) := entries[j];
      assert entries[..j + 1][..j] == entries[..j];
      if code in targetSymbols || code == ValuationSymbol {
        if amount.Some? && amount.value > 0.0 {
          pushed := pushed + [Balance(code, amount.value, Cex, sourceName, Some("cex"))];
        }
      }
    }
    assert entries[..|entries|] == entries;
  }

  // ---------------------------------------------------------------------------
  // Properties
  // ---------------------------------------------------------------------------

  lemma {:induction false} EnabledFromIds(env: Env, library: Library, ids: seq<string>)
    ensures ExchangeIds(EnabledFrom(env, library, ids)) == Filter(ids, EnablesIn(env, library))
    ensures forall i :: 0 <= i < |EnabledFrom(env, library, ids)| ==>
              var ex := EnabledFrom(env, library, ids)[i];
              Enables(env, library, ex.id) && ex.name == library(ex.id).value.value
  {
    if ids != [] {
      EnabledFromIds(env, library, ids[..|ids| - 1]);
    }
  }

  /**
   * The enabled exchanges are exactly the supported ones, in the supported
   * order, whose `<ID>_API_KEY` and `<ID>_API_SECRET` are both set and whose
   * class exists and constructs.
   */
  lemma EnabledExchangesSpec(env: Env, library: Library)
    ensures ExchangeIds(EnabledExchanges(env, library)) == Filter(Supported, EnablesIn(env, library))
    ensures forall i :: 0 <= i < |EnabledExchanges(env, library)| ==>
              var ex := EnabledExchanges(env, library)[i];
              && IsSet(env, KeyVariable(ex.id)) && IsSet(env, SecretVariable(ex.id))
              && library(ex.id) == Some(Succeeded(ex.name))
  {
    EnabledFromIds(env, library, Supported);
  }

  /** An exchange missing either credential is never enabled. */
  lemma MissingCredentialDisables(env: Env, library: Library, id: string)
    requires !IsSet(env, KeyVariable(id)) || !IsSet(env, SecretVariable(id))
    ensures id !in ExchangeIds(EnabledExchanges(env, library))
  {
    EnabledExchangesSpec(env, library);
    FilterMembership(Supported, EnablesIn(env, library), id);
  }

  /**
   * An entry becomes a record iff its code is a target and its amount is a
   * positive number; records carry `cex` as source type and chain.
   */
  lemma {:induction false} EntryRecordsSpec(tokens: seq<TokenDef>, sourceName: string,
                                            entries: seq<(string, Option<real>)>, b: Balance)
    ensures b in EntryRecords(tokens, sourceName, entries) <==>
              && (b.symbol, Some(b.amount)) in entries && IsTarget(tokens, b.symbol) && b.amount > 0.0
              && b.sourceType == Cex && b.sourceName == sourceName && b.chain == Some("cex")
  {
    if entries != [] {
      var init, last := entries[..|entries| - 1], entries[|entries| - 1];
      EntryRecordsSpec(tokens, sourceName, init, b);
      assert entries == init + [last];
      assert (b.symbol, Some(b.amount)) in entries <==> (b.symbol, Some(b.amount)) in init || (b.symbol, Some(b.amount)) == last;
    }
  }

  /** The targets are the configured symbols and `JPY`. */
  lemma TargetsAreConfiguredOrJpy(tokens: seq<TokenDef>, code: string)
    ensures IsTarget(tokens, code) <==> code in Symbols(tokens) || code == ValuationSymbol
  {
  }

  /**
   * Every record is a positive holding of a target code, attributed to one of
   * the enabled exchanges by `name || id`; with no exchange there is none.
   */
  lemma CexBalancesShape(exchanges: seq<Exchange>, tokens: seq<TokenDef>, api: string -> Outcome<seq<(string, Option<real>)>>)
    ensures exchanges == [] ==> CexBalances(exchanges, tokens, api) == []
    ensures forall b :: b in CexBalances(exchanges, tokens, api) ==>
              && IsTarget(tokens, b.symbol) && b.amount > 0.0 && b.sourceType == Cex && b.chain == Some("cex")
              && exists i :: 0 <= i < |exchanges| && b.sourceName == SourceName(exchanges[i])
  {
    forall b | b in CexBalances(exchanges, tokens, api)
      ensures && IsTarget(tokens, b.symbol) && b.amount > 0.0 && b.sourceType == Cex && b.chain == Some("cex")
              && exists i :: 0 <= i < |exchanges| && b.sourceName == SourceName(exchanges[i])
    {
      FlatMapMembership(exchanges, PerExchange(tokens, api), b);
      var i :| 0 <= i < |exchanges| && b in ExchangeRecords(tokens, api, exchanges[i]);
      match api(exchanges[i].id)
      case Threw(_) =>
      case Succeeded(entries) => EntryRecordsSpec(tokens, SourceName(exchanges[i]), entries, b);
    }
  }

  /** An exchange whose `fetchBalance` throws adds nothing, and the other exchanges are still read. */
  lemma FailedExchangeSkipped(before: seq<Exchange>, ex: Exchange, after: seq<Exchange>,
                              tokens: seq<TokenDef>, api: string -> Outcome<seq<(string, Option<real>)>>)
    requires api(ex.id).Threw?
    ensures CexBalances(before + [ex] + after, tokens, api)
         == CexBalances(before, tokens, api) + CexBalances(after, tokens, api)
  {
    FlatMapSkip(before, ex, after, PerExchange(tokens, api));
  }
}
