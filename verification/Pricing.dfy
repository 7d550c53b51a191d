/** Per-call cost estimation (brain/llm/pricing.py). */
module Pricing {

  /** US dollars per million tokens. */
  datatype TokenPrice = TokenPrice(input: real, output: real)

  type PriceTable = map<(string, string), TokenPrice>

  const PRICING: PriceTable := map[("groq", "llama-3.3-70b-versatile") := TokenPrice(0.59, 0.79)]

  const MILLION := 1000000.0

  /** Rounds to six decimal places, halves away from zero. */
  function Quantize(x: real): real {
    if x >= 0.0 then (x * MILLION + 0.5).Floor as real / MILLION
    else -((-x * MILLION + 0.5).Floor as real / MILLION)
  }

  /** The cost before rounding. */
  function Exact(price: TokenPrice, promptTokens: int, completionTokens: int): real {
    promptTokens as real / MILLION * price.input + completionTokens as real / MILLION * price.output
  }

  function EstimateCost(table: PriceTable, provider: string, model: string, promptTokens: int, completionTokens: int): real {
    if (provider, model) !in table then 0.0
    else
      Quantize(Exact(table[(provider, model)], promptTokens, completionTokens))
  }

  /** A step is paid when a call of one token each way costs something. */
  predicate IsPaid(table: PriceTable, provider: string, model: string) {
    EstimateCost(table, provider, model, 1, 1) > 0.0
  }

  ghost predicate NonNegative(table: PriceTable) {
    forall k | k in table :: table[k].input >= 0.0 && table[k].output >= 0.0
  }

  /** The result is a whole number of millionths at most half a millionth away, and above on a tie. */
  lemma QuantizeIsNearest(x: real) returns (n: nat)
    requires x >= 0.0
    ensures Quantize(x) == n as real / MILLION
    ensures x - 0.0000005 < Quantize(x) <= x + 0.0000005
  {
    n := (x * MILLION + 0.5).Floor;
    assert n as real <= x * MILLION + 0.5 < n as real + 1.0;
    assert Quantize(x) == n as real / MILLION;
    assert (n as real / MILLION) * MILLION == n as real;
  }

  /** The budget gates exactly the priced models whose two rates add up to at least half a dollar
      per million; a cheaper priced model passes the gate for free. */
  lemma PaidIff(table: PriceTable, provider: string, model: string)
    requires NonNegative(table)
    ensures IsPaid(table, provider, model)
      <==> (provider, model) in table && table[(provider, model)].input + table[(provider, model)].output >= 0.5
  {
    if (provider, model) in table {
      var price := table[(provider, model)];
      var cost := 1 as real / MILLION * price.input + 1 as real / MILLION * price.output;
      assert cost * MILLION == price.input + price.output;
      var n := (cost * MILLION + 0.5).Floor;
      assert Quantize(cost) == n as real / MILLION;
      assert n >= 1 <==> price.input + price.output >= 0.5;
      assert n as real / MILLION > 0.0 <==> n >= 1;
    }
  }

  /** The rates are per million tokens, one for each direction; what is not priced is free. */
  lemma MillionTokens(table: PriceTable, provider: string, model: string, promptTokens: int, completionTokens: int)
    ensures (provider, model) in table ==>
      && EstimateCost(table, provider, model, 1000000, 0) == Quantize(table[(provider, model)].input)
      && EstimateCost(table, provider, model, 0, 1000000) == Quantize(table[(provider, model)].output)
    ensures (provider, model) !in table ==> EstimateCost(table, provider, model, promptTokens, completionTokens) == 0.0
  {
  }

  /** The prices shipped: 59 cents a million tokens in, 79 out. */
  lemma ShippedPrices()
    ensures EstimateCost(PRICING, "groq", "llama-3.3-70b-versatile", 1000000, 0) == 0.59
    ensures EstimateCost(PRICING, "groq", "llama-3.3-70b-versatile", 0, 1000000) == 0.79
    ensures PRICING.Keys == {("groq", "llama-3.3-70b-versatile")}
  {
    assert (0.59 * MILLION + 0.5).Floor == 590000 && (0.79 * MILLION + 0.5).Floor == 790000;
  }

  lemma QuantizeKeepsOrder(x: real, y: real)
    requires 0.0 <= x <= y
    ensures Quantize(x) <= Quantize(y)
  {
    var a, b := x * MILLION + 0.5, y * MILLION + 0.5;
    assert a.Floor <= b.Floor;
  }

  lemma Weigh(x: real, y: real, rate: real)
    requires 0.0 <= x <= y && rate >= 0.0
    ensures 0.0 <= x * rate <= y * rate
  {
    ProductIsNotNegative(x, rate);
    ProductIsNotNegative(y - x, rate);
    assert (y - x) * rate == y * rate - x * rate;
  }

  /** More tokens never cost less. */
  lemma CostGrows(table: PriceTable, provider: string, model: string, p: nat, c: nat, q: nat, d: nat)
    requires NonNegative(table) && p <= q && c <= d
    ensures EstimateCost(table, provider, model, p, c) <= EstimateCost(table, provider, model, q, d)
  {
    if (provider, model) in table {
      var price := table[(provider, model)];
      ExactGrows(price, p, c, q, d);
      QuantizeKeepsOrder(Exact(price, p, c), Exact(price, q, d));
    }
  }

  lemma ExactGrows(price: TokenPrice, p: nat, c: nat, q: nat, d: nat)
    requires price.input >= 0.0 && price.output >= 0.0 && p <= q && c <= d
    ensures 0.0 <= Exact(price, p, c) <= Exact(price, q, d)
  {
    Weigh(p as real / MILLION, q as real / MILLION, price.input);
    Weigh(c as real / MILLION, d as real / MILLION, price.output);
  }

  lemma CostIsNotNegative(table: PriceTable, provider: string, model: string, promptTokens: nat, completionTokens: nat)
    requires NonNegative(table)
    ensures EstimateCost(table, provider, model, promptTokens, completionTokens) >= 0.0
    ensures EstimateCost(table, provider, model, 0, 0) == 0.0
  {
    if (provider, model) in table {
      var price := table[(provider, model)];
      ProductIsNotNegative(promptTokens as real / MILLION, price.input);
      ProductIsNotNegative(completionTokens as real / MILLION, price.output);
      var cost := promptTokens as real / MILLION * price.input + completionTokens as real / MILLION * price.output;
      assert (cost * MILLION + 0.5).Floor >= 0;
    }
  }

  lemma ProductIsNotNegative(a: real, b: real)
    requires a >= 0.0 && b >= 0.0
    ensures a * b >= 0.0
  {
  }
}
