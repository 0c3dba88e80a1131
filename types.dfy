/**
 * The shared data model: a configured token, one balance observation made by a
 * provider, and one aggregated line of the report (src/types/index.ts).
 */
module Types {
  import opened Common

  /** The valuation currency: always priced at 1, never reported as a holding. */
  const ValuationSymbol: string := "JPY"

  /** Where a balance is held: `'wallet' | 'cex'`. */
  datatype SourceType = Wallet | Cex

  /**
   * A JSON object used as a string dictionary (`addresses`, `chains`), as the
   * list of its key/value pairs in source order. As after `JSON.parse`, a key
   * repeated in the text keeps the place of its first occurrence and the value
   * of its last one.
   */
  type Dict = seq<(string, string)>

  /** `Object.keys(d)` */
  function Keys(d: Dict): (ks: seq<string>)
    ensures NoDuplicates(ks)
    ensures forall i :: 0 <= i < |d| ==> d[i].0 in ks
    ensures forall i :: 0 <= i < |ks| ==> exists j :: 0 <= j < |d| && d[j].0 == ks[i]
  {
    var names := seq(|d|, i requires 0 <= i < |d| => d[i].0);
    assert forall i :: 0 <= i < |d| ==> names[i] == d[i].0;
    Distinct(names)
  }

  /** `d[k]`, `None` standing for `undefined`. */
  function Get(d: Dict, k: string): (v: Option<string>)
    ensures v.None? <==> forall i :: 0 <= i < |d| ==> d[i].0 != k
    ensures v.Some? ==> exists i :: 0 <= i < |d| && d[i] == (k, v.value)
  {
    if d == [] then None
    else if d[|d| - 1].0 == k then Some(d[|d| - 1].1)
    else Get(d[..|d| - 1], k)
  }

  /** An entry of the token configuration. Absent `addresses`/`chains` are the empty dictionary. */
  datatype TokenDef = TokenDef(
    symbol: string,
    coingeckoId: Option<string>,
    decimals: Option<nat>,
    addresses: Dict,
    chains: Dict,
    native: bool)

  /** One observation of a holding, as a provider emits it. */
  datatype Balance = Balance(
    symbol: string,
    amount: real,
    sourceType: SourceType,
    sourceName: string,
    chain: Option<string>)

  /** One line of the report. */
  datatype AggregatedBalance = AggregatedBalance(
    symbol: string,
    totalAmount: real,
    details: seq<Balance>,
    priceJpy: real,
    valueJpy: real)

  /** `tokens.map(t => t.symbol)` */
  function Symbols(tokens: seq<TokenDef>): (ss: seq<string>)
    ensures |ss| == |tokens| && forall i :: 0 <= i < |tokens| ==> ss[i] == tokens[i].symbol
  {
    seq(|tokens|, i requires 0 <= i < |tokens| => tokens[i].symbol)
  }

  /** `tokens.find(t => t.symbol === s)`: the first token with that symbol. */
  function FindSymbol(tokens: seq<TokenDef>, s: string): (r: Option<TokenDef>)
    ensures r.None? <==> s !in Symbols(tokens)
    ensures r.Some? ==> r.value in tokens && r.value.symbol == s
  {
    if tokens == [] then None
    else if tokens[0].symbol == s then Some(tokens[0])
    else
      assert Symbols(tokens) == [tokens[0].symbol] + Symbols(tokens[1..]);
      FindSymbol(tokens[1..], s)
  }

  /** `details.reduce((sum, d) => sum + d.amount, 0)`, summed exactly. */
  function SumAmounts(bs: seq<Balance>): real {
    if bs == [] then 0.0 else SumAmounts(bs[..|bs| - 1]) + bs[|bs| - 1].amount
  }

  lemma {:induction false} SumAmountsAppend(a: seq<Balance>, b: seq<Balance>)
    ensures SumAmounts(a + b) == SumAmounts(a) + SumAmounts(b)
    decreases |b|
  {
    if b != [] {
      SumAmountsAppend(a, b[..|b| - 1]);
      assert (a + b)[..|a + b| - 1] == a + b[..|b| - 1];
    } else {
      assert a + b == a;
    }
  }
}
