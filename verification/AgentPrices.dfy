/** Which price a span is charged at, and what it then costs. */
module AgentPrices {
  import opened Wrappers
  import opened AgentSpans
  import opened AgentUsage

  /** The price is for the model and the provider, None for any, and neither rate is negative. */
  predicate IsFor(p: Price, model: string, provider: Option<string>) {
    p.model == model && p.provider == provider && p.inputPerMillion >= 0.0 && p.outputPerMillion >= 0.0
  }

  /** The first price listed for the model and the provider. */
  ghost predicate FirstFor(prices: seq<Price>, model: string, provider: Option<string>, p: Price) {
    exists n :: 0 <= n < |prices| && prices[n] == p && IsFor(p, model, provider) && forall m :: 0 <= m < n ==> !IsFor(prices[m], model, provider)
  }

  ghost predicate NoneFor(prices: seq<Price>, model: string, provider: Option<string>) {
    forall m :: 0 <= m < |prices| ==> !IsFor(prices[m], model, provider)
  }

  lemma {:induction false} FirstPriceIs(model: string, provider: Option<string>, prices: seq<Price>)
    ensures var p := FirstPrice(model, provider, prices);
            if p.Some? then FirstFor(prices, model, provider, p.value) else NoneFor(prices, model, provider)
  {
    if prices != [] {
      FirstPriceIs(model, provider, prices[1..]);
      var p := FirstPrice(model, provider, prices[1..]);
      assert forall m :: 0 < m < |prices| ==> prices[m] == prices[1..][m - 1];
      if IsFor(prices[0], model, provider) {
        assert prices[0] == FirstPrice(model, provider, prices).value;
      } else if p.Some? {
        var n :| 0 <= n < |prices[1..]| && prices[1..][n] == p.value && IsFor(p.value, model, provider) &&
                 forall m :: 0 <= m < n ==> !IsFor(prices[1..][m], model, provider);
        assert prices[n + 1] == p.value;
      }
    }
  }

  /** A model's price: the first for the span's own provider, and the first for any when its own has
      none, or it has no provider. */
  ghost predicate Charges(prices: seq<Price>, model: string, provider: Option<string>, p: Price) {
    (provider.Some? && FirstFor(prices, model, provider, p)) ||
    ((provider.None? || NoneFor(prices, model, provider)) && FirstFor(prices, model, None, p))
  }

  ghost predicate ChargesNothing(prices: seq<Price>, model: string, provider: Option<string>) {
    (provider.Some? ==> NoneFor(prices, model, provider)) && NoneFor(prices, model, None)
  }

  lemma PriceForIs(model: string, provider: Option<string>, prices: seq<Price>)
    ensures var p := PriceFor(model, provider, prices);
            if p.Some? then Charges(prices, model, provider, p.value) else ChargesNothing(prices, model, provider)
  {
    FirstPriceIs(model, provider, prices);
    FirstPriceIs(model, None, prices);
    hide FirstFor;
    hide NoneFor;
    hide FirstPrice;
  }

  /** The price a span is charged at: its response model's, and its request model's when that has no
      response model or no price for it. */
  ghost predicate ChargedAt(s: Span, prices: seq<Price>, p: Price) {
    (s.responseModel.Some? && Charges(prices, s.responseModel.value, s.provider, p)) ||
    ((s.responseModel.None? || ChargesNothing(prices, s.responseModel.value, s.provider)) &&
     s.requestModel.Some? && Charges(prices, s.requestModel.value, s.provider, p))
  }

  /** A million times a span's cost is its input tokens at the input rate and its output tokens at the
      output rate, an absent count being none; it has no cost exactly when no price is listed. */
  lemma CostIs(s: Span, prices: seq<Price>)
    ensures CostOf(s, prices).Some? ==>
              exists p :: ChargedAt(s, prices, p) &&
                CostOf(s, prices).value * 1_000_000.0 ==
                (if s.inputTokens.Some? then s.inputTokens.value as real else 0.0) * p.inputPerMillion +
                (if s.outputTokens.Some? then s.outputTokens.value as real else 0.0) * p.outputPerMillion
    ensures CostOf(s, prices).None? ==>
              (s.responseModel.Some? ==> ChargesNothing(prices, s.responseModel.value, s.provider)) &&
              (s.requestModel.Some? ==> ChargesNothing(prices, s.requestModel.value, s.provider))
  {
    hide Charges;
    hide ChargesNothing;
    hide PriceFor;
    if s.responseModel.Some? {
      PriceForIs(s.responseModel.value, s.provider, prices);
    }
    if s.requestModel.Some? {
      PriceForIs(s.requestModel.value, s.provider, prices);
    }
    if CostOf(s, prices).Some? {
      var ran := if s.responseModel.None? then None else PriceFor(s.responseModel.value, s.provider, prices);
      var p := if ran.Some? then ran.value else PriceFor(s.requestModel.value, s.provider, prices).value;
      assert ChargedAt(s, prices, p);
    }
  }

  lemma FirstIsOne(prices: seq<Price>, model: string, provider: Option<string>, p: Price, q: Price)
    requires FirstFor(prices, model, provider, p)
    ensures FirstFor(prices, model, provider, q) ==> p == q
    ensures !NoneFor(prices, model, provider)
  {
    var n :| 0 <= n < |prices| && prices[n] == p && IsFor(p, model, provider) && forall m :: 0 <= m < n ==> !IsFor(prices[m], model, provider);
    if FirstFor(prices, model, provider, q) {
      var k :| 0 <= k < |prices| && prices[k] == q && IsFor(q, model, provider) && forall m :: 0 <= m < k ==> !IsFor(prices[m], model, provider);
      assert n == k;
    }
  }

  lemma ChargeIsOne(prices: seq<Price>, model: string, provider: Option<string>, p: Price, q: Price)
    requires Charges(prices, model, provider, p)
    ensures Charges(prices, model, provider, q) ==> p == q
    ensures !ChargesNothing(prices, model, provider)
  {
    hide FirstFor;
    hide NoneFor;
    if provider.Some? && FirstFor(prices, model, provider, p) {
      FirstIsOne(prices, model, provider, p, q);
    } else {
      FirstIsOne(prices, model, None, p, q);
    }
    if provider.Some? && FirstFor(prices, model, provider, q) {
      FirstIsOne(prices, model, provider, q, p);
    }
  }

  /** No span is charged at two prices. */
  lemma OnePriceCharged(s: Span, prices: seq<Price>, p: Price, q: Price)
    requires ChargedAt(s, prices, p) && ChargedAt(s, prices, q)
    ensures p == q
  {
    hide Charges;
    hide ChargesNothing;
    if s.responseModel.Some? && Charges(prices, s.responseModel.value, s.provider, p) {
      ChargeIsOne(prices, s.responseModel.value, s.provider, p, q);
    } else {
      if s.responseModel.Some? && Charges(prices, s.responseModel.value, s.provider, q) {
        ChargeIsOne(prices, s.responseModel.value, s.provider, q, p);
      }
      ChargeIsOne(prices, s.requestModel.value, s.provider, p, q);
    }
  }

  /** What one span adds to the counters: its tokens, and its cost or a mark that it has none; nothing
      when it is a roll-up of others or reports no tokens. */
  lemma UsageOfOneIs(s: Span, prices: seq<Price>)
    ensures var u, cost := UsageOfOne(s, prices), CostOf(s, prices);
            if s.operation == "invoke_agent" || s.operation == "invoke_workflow" || (s.inputTokens.None? && s.outputTokens.None?) then
              u == Usage(0, 0, 0.0, 0, 0)
            else
              u.inputTokens == (if s.inputTokens.Some? then s.inputTokens.value else 0) &&
              u.outputTokens == (if s.outputTokens.Some? then s.outputTokens.value else 0) &&
              (cost.Some? ==> u.knownUsd == cost.value && u.pricedSpans == 1 && u.unknownSpans == 0) &&
              (cost.None? ==> u.knownUsd == 0.0 && u.pricedSpans == 0 && u.unknownSpans == 1)
  {
  }
}
