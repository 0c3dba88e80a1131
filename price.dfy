/**
 * The price table builder (src/services/price.ts): seeds the valuation
 * currency at 1, asks the price service once for every token that carries a
 * price id, and degrades to the seed alone when the request fails.
 *
 * The HTTP request is not modelled; its result is an input: `None` when the
 * request threw, otherwise the response body as a map from price id to the
 * quoted `jpy` field (`None` when that field is missing).
 */
module Price {
  import opened Common
  import opened Types

  /** Values are what `prices.set` stored; `None` is a stored `undefined`. */
  type PriceTable = map<string, Option<real>>

  type PriceResponse = Option<map<string, Option<real>>>

  /** `t.coingeckoId` is truthy: present and not the empty string. */
  predicate HasPriceId(t: TokenDef) {
    t.coingeckoId.Some? && t.coingeckoId.value != ""
  }

  /** `tokens.filter(t => t.coingeckoId)` */
  function Targets(tokens: seq<TokenDef>): seq<TokenDef> {
    Filter(tokens, HasPriceId)
  }

  /** The ids of the targets, in token order. */
  function Ids(targets: seq<TokenDef>): (ids: seq<string>)
    requires forall i :: 0 <= i < |targets| ==> HasPriceId(targets[i])
    ensures |ids| == |targets|
    ensures forall i :: 0 <= i < |targets| ==> targets[i].coingeckoId == Some(ids[i])
  {
    seq(|targets|, i requires 0 <= i < |targets| && HasPriceId(targets[i]) => targets[i].coingeckoId.value)
  }

  /** The `ids` request parameter: `targets.map(t => t.coingeckoId).join(',')`. */
  function IdsParameter(tokens: seq<TokenDef>): string {
    Join(Ids(Targets(tokens)), ',')
  }

  /** What a target is given on success: its quoted price, or 0 when the id is absent. */
  function Quote(data: map<string, Option<real>>, t: TokenDef): Option<real>
    requires HasPriceId(t)
  {
    if t.coingeckoId.value in data then data[t.coingeckoId.value] else Some(0.0)
  }

  const Seed: PriceTable := map[ValuationSymbol := Some(1.0)]

  /** Sets the quote of each target in turn; a later target with the same symbol overwrites. */
  function SetQuotes(table: PriceTable, targets: seq<TokenDef>, data: map<string, Option<real>>): PriceTable
    requires forall i :: 0 <= i < |targets| ==> HasPriceId(targets[i])
  {
    if targets == [] then table
    else
      var last := targets[|targets| - 1];
      SetQuotes(table, targets[..|targets| - 1], data)[last.symbol := Quote(data, last)]
  }

  /** The table `fetchPrices` returns. */
  function PriceTableOf(tokens: seq<TokenDef>, response: PriceResponse): PriceTable {
    var targets := Targets(tokens);
    if targets == [] || response.None? then Seed
    else SetQuotes(Seed, targets, response.value)
  }

  /** `prices.get(symbol) || 0` */
  function PriceOf(table: PriceTable, symbol: string): real {
    if symbol in table && table[symbol].Some? then table[symbol].value else 0.0
  }

  /** The loop of `fetchPrices`, proved to build `PriceTableOf`. */
  method FetchPrices(tokens: seq<TokenDef>, response: PriceResponse) returns (prices: PriceTable)
    ensures prices == PriceTableOf(tokens, response)
  {
    prices := map[];
    prices := prices[ValuationSymbol := Some(1.0)];
    var targets := Targets(tokens);
    if |targets| == 0 {
      return;
    }
    if response.None? {
      return;
    }
    var data := response.value;
    for i := 0 to |targets|
      invariant prices == SetQuotes(Seed, targets[..i], data)
    {
      var token := targets[i];
      assert targets[..i + 1][..i] == targets[..i];
      if token.coingeckoId.value in data {
        prices := prices[token.symbol := data[token.coingeckoId.value]];
      } else {
        prices := prices[token.symbol := Some(0.0)];
      }
    }
    assert targets[..|targets|] == targets;
  }

  // ---------------------------------------------------------------------------
  // Properties
  // ---------------------------------------------------------------------------

  lemma {:induction false} SetQuotesKeys(table: PriceTable, targets: seq<TokenDef>, data: map<string, Option<real>>)
    requires forall i :: 0 <= i < |targets| ==> HasPriceId(targets[i])
    ensures SetQuotes(table, targets, data).Keys == table.Keys + set t | t in targets :: t.symbol
  {
    if targets != [] {
      var init := targets[..|targets| - 1];
      SetQuotesKeys(table, init, data);
      assert targets == init + [targets[|targets| - 1]];
      assert (set t | t in targets :: t.symbol)
          == (set t | t in init :: t.symbol) + {targets[|targets| - 1].symbol};
    }
  }

  /** The quote of the last target with a symbol is the one that stays. */
  lemma {:induction false} SetQuotesValue(table: PriceTable, targets: seq<TokenDef>, data: map<string, Option<real>>, i: nat)
    requires forall k :: 0 <= k < |targets| ==> HasPriceId(targets[k])
    requires i < |targets|
    requires forall k :: i < k < |targets| ==> targets[k].symbol != targets[i].symbol
    ensures targets[i].symbol in SetQuotes(table, targets, data)
    ensures SetQuotes(table, targets, data)[targets[i].symbol] == Quote(data, targets[i])
  {
    if i < |targets| - 1 {
      SetQuotesValue(table, targets[..|targets| - 1], data, i);
    }
  }

  lemma {:induction false} SetQuotesUntouched(table: PriceTable, targets: seq<TokenDef>, data: map<string, Option<real>>, s: string)
    requires forall k :: 0 <= k < |targets| ==> HasPriceId(targets[k])
    requires forall k :: 0 <= k < |targets| ==> targets[k].symbol != s
    ensures s in SetQuotes(table, targets, data) <==> s in table
    ensures s in table ==> SetQuotes(table, targets, data)[s] == table[s]
  {
    if targets != [] {
      SetQuotesUntouched(table, targets[..|targets| - 1], data, s);
    }
  }

  /** With no priced token, or when the request fails, the table is the seed `{JPY: 1}` alone. */
  lemma PriceTableDegrades(tokens: seq<TokenDef>, response: PriceResponse)
    requires (forall i :: 0 <= i < |tokens| ==> !HasPriceId(tokens[i])) || response.None?
    ensures PriceTableOf(tokens, response) == map[ValuationSymbol := Some(1.0)]
  {
    if forall i :: 0 <= i < |tokens| ==> !HasPriceId(tokens[i]) {
      if Targets(tokens) != [] {
        var t := Targets(tokens)[0];
        FilterMembership(tokens, HasPriceId, t);
      }
    }
  }

  /**
   * On success every target symbol gets an entry holding the quote of its last
   * target (the fetched price, or 0 when the id is missing from the response);
   * no other symbol but the seed's has an entry.
   */
  lemma {:induction false} PriceTableOnSuccess(tokens: seq<TokenDef>, data: map<string, Option<real>>)
    ensures var table := PriceTableOf(tokens, Some(data));
      && table.Keys == {ValuationSymbol} + (set t | t in Targets(tokens) :: t.symbol)
      && (forall i :: 0 <= i < |Targets(tokens)| &&
            (forall k :: i < k < |Targets(tokens)| ==> Targets(tokens)[k].symbol != Targets(tokens)[i].symbol)
            ==> table[Targets(tokens)[i].symbol] == Quote(data, Targets(tokens)[i]))
  {
    var targets := Targets(tokens);
    if targets != [] {
      SetQuotesKeys(Seed, targets, data);
      forall i | 0 <= i < |targets| &&
          (forall k :: i < k < |targets| ==> targets[k].symbol != targets[i].symbol)
        ensures PriceTableOf(tokens, Some(data))[targets[i].symbol] == Quote(data, targets[i])
      {
        SetQuotesValue(Seed, targets, data, i);
      }
    }
  }

  /** The valuation currency is always priced; at 1 unless a priced token of that symbol overwrote it. */
  lemma PriceTableSeeded(tokens: seq<TokenDef>, response: PriceResponse)
    ensures ValuationSymbol in PriceTableOf(tokens, response)
    ensures (forall i :: 0 <= i < |tokens| ==> !(HasPriceId(tokens[i]) && tokens[i].symbol == ValuationSymbol))
            ==> PriceTableOf(tokens, response)[ValuationSymbol] == Some(1.0)
  {
    var targets := Targets(tokens);
    if targets != [] && response.Some? {
      SetQuotesKeys(Seed, targets, response.value);
      if forall i :: 0 <= i < |tokens| ==> !(HasPriceId(tokens[i]) && tokens[i].symbol == ValuationSymbol) {
        forall k | 0 <= k < |targets| ensures targets[k].symbol != ValuationSymbol {
          FilterMembership(tokens, HasPriceId, targets[k]);
        }
        SetQuotesUntouched(Seed, targets, response.value, ValuationSymbol);
      }
    }
  }

  /** A symbol with no priced token never gets an entry, the seed apart. */
  lemma PriceTableOnlyTargets(tokens: seq<TokenDef>, response: PriceResponse, s: string)
    requires s != ValuationSymbol
    requires forall i :: 0 <= i < |tokens| ==> tokens[i].symbol == s ==> !HasPriceId(tokens[i])
    ensures s !in PriceTableOf(tokens, response)
  {
    var targets := Targets(tokens);
    if targets != [] && response.Some? {
      forall k | 0 <= k < |targets| ensures targets[k].symbol != s {
        FilterMembership(tokens, HasPriceId, targets[k]);
      }
      SetQuotesUntouched(Seed, targets, response.value, s);
    }
  }

  /** The request parameter splits back into the ids, one per target, when no id holds a comma. */
  lemma IdsParameterRoundTrip(tokens: seq<TokenDef>)
    requires Targets(tokens) != []
    requires forall i :: 0 <= i < |tokens| ==> HasPriceId(tokens[i]) ==> ',' !in tokens[i].coingeckoId.value
    ensures Split(IdsParameter(tokens), ',') == Ids(Targets(tokens))
  {
    var targets := Targets(tokens);
    var ids := Ids(targets);
    forall i | 0 <= i < |ids| ensures ',' !in ids[i] {
      FilterMembership(tokens, HasPriceId, targets[i]);
    }
    SplitJoin(ids, ',');
  }

  /**
   * The default configuration lists `JPY` with the price id "jpy-coin": when the
   * response lacks that id, the seed is overwritten with 0.
   */
  lemma JpyCoinOverwritesSeed(data: map<string, Option<real>>)
    requires "jpy-coin" !in data
    ensures var jpy := TokenDef(ValuationSymbol, Some("jpy-coin"), None, [], [], false);
      PriceTableOf([jpy], Some(data))[ValuationSymbol] == Some(0.0)
  {
    var jpy := TokenDef(ValuationSymbol, Some("jpy-coin"), None, [], [], false);
    assert [jpy][..0] == [];
    assert Targets([jpy]) == [jpy];
  }
}
