/** Prices: which rule of the price book applies, what one component costs, and what a request costs in all. */
module Pricing {
  import opened Common
  import opened Money

  type Time = real

  /** A row of the price book; the price of a unit is in quanta. */
  datatype Rule = Rule(provider: string, operation: string, model: Option<string>, pricePerUnit: real, markup: real,
                       effectiveFrom: Time, effectiveUntil: Option<Time>, version: int, created: Time, active: bool)

  /** What is asked of the book, but for the operation and the quantity. */
  datatype Query = Query(provider: string, model: Option<string>, at: Time)

  // ---- choosing a rule ------------------------------------------------------

  predicate Applies(r: Rule, q: Query, operation: string) {
    && (r.provider == q.provider || r.provider == "*")
    && r.operation == operation
    && r.active
    && r.effectiveFrom <= q.at
    && (r.effectiveUntil.None? || r.effectiveUntil.value > q.at)
    && (q.model.Some? ==> r.model == q.model || r.model.None?)
  }

  /** Rules for a model come first, then higher versions, then later rows. */
  predicate Precedes(a: Rule, b: Rule) {
    if a.model.None? != b.model.None? then b.model.None?
    else if a.version != b.version then a.version > b.version
    else a.created >= b.created
  }

  function Insert(r: Rule, sorted: seq<Rule>): seq<Rule> {
    if sorted == [] then [r]
    else
      var n := |sorted| - 1;
      if Precedes(sorted[n], r) then sorted + [r] else Insert(r, sorted[..n]) + [sorted[n]]
  }

  /** The rules that apply, in the order of the query. */
  function Rules(book: seq<Rule>, q: Query, operation: string): seq<Rule> {
    if book == [] then []
    else
      var n := |book| - 1;
      var before := Rules(book[..n], q, operation);
      if Applies(book[n], q, operation) then Insert(book[n], before) else before
  }

  function FirstFor(rules: seq<Rule>, model: Option<string>): (r: Option<Rule>)
    ensures r.None? ==> forall i :: 0 <= i < |rules| ==> rules[i].model != model
    ensures r.Some? ==> exists i :: 0 <= i < |rules| && r.value == rules[i] && rules[i].model == model
                                    && forall j :: 0 <= j < i ==> rules[j].model != model
  {
    if rules == [] then None
    else if rules[0].model == model then Some(rules[0])
    else
      var later := FirstFor(rules[1..], model);
      if later.None? then
        assert forall i :: 1 <= i < |rules| ==> rules[i] == rules[1..][i - 1];
        None
      else
        var i :| 0 <= i < |rules[1..]| && later.value == rules[1..][i] && rules[1..][i].model == model
                 && forall j :: 0 <= j < i ==> rules[1..][j].model != model;
        assert forall j :: 1 <= j < i + 1 ==> rules[j] == rules[1..][j - 1];
        assert later.value == rules[i + 1];
        later
  }

  function Chosen(book: seq<Rule>, q: Query, operation: string): Option<Rule> {
    var rules := Rules(book, q, operation);
    var exact := FirstFor(rules, q.model);
    if exact.Some? then exact else FirstFor(rules, None)
  }

  ghost predicate InOrder(rules: seq<Rule>) {
    forall i, j :: 0 <= i < j < |rules| ==> Precedes(rules[i], rules[j])
  }

  lemma {:induction false} InsertSorts(r: Rule, sorted: seq<Rule>)
    requires InOrder(sorted)
    ensures InOrder(Insert(r, sorted))
    ensures multiset(Insert(r, sorted)) == multiset(sorted) + multiset{r}
  {
    hide Precedes;
    if sorted != [] {
      var n := |sorted| - 1;
      assert sorted == sorted[..n] + [sorted[n]];
      if Precedes(sorted[n], r) {
        EndsInOrder(sorted, r);
      } else {
        InsertSorts(r, sorted[..n]);
        var front := Insert(r, sorted[..n]);
        PrecedesTotal(r, sorted[n]);
        forall i | 0 <= i < |front| ensures Precedes(front[i], sorted[n]) {
          assert front[i] in multiset(front);
          assert front[i] == r || front[i] in sorted[..n];
        }
      }
    }
  }

  lemma PrecedesTotal(a: Rule, b: Rule)
    ensures Precedes(a, b) || Precedes(b, a)
  {
  }

  lemma EndsInOrder(sorted: seq<Rule>, r: Rule)
    requires InOrder(sorted) && (sorted != [] ==> Precedes(sorted[|sorted| - 1], r))
    ensures InOrder(sorted + [r])
  {
    forall i | 0 <= i < |sorted| ensures Precedes(sorted[i], r) {
      assert i == |sorted| - 1 || Precedes(sorted[i], sorted[|sorted| - 1]);
    }
  }

  lemma {:induction false} RulesSorted(book: seq<Rule>, q: Query, operation: string)
    ensures InOrder(Rules(book, q, operation))
    ensures forall r :: r in Rules(book, q, operation) <==> r in book && Applies(r, q, operation)
  {
    if book != [] {
      var n := |book| - 1;
      assert book == book[..n] + [book[n]];
      RulesSorted(book[..n], q, operation);
      if Applies(book[n], q, operation) {
        var before := Rules(book[..n], q, operation);
        InsertSorts(book[n], before);
        assert forall r :: r in Insert(book[n], before) <==> r in multiset(Insert(book[n], before));
        assert forall r :: r in before <==> r in multiset(before);
      }
    }
  }

  ghost predicate Candidate(r: Rule, book: seq<Rule>, q: Query, operation: string, model: Option<string>) {
    r in book && Applies(r, q, operation) && r.model == model
  }

  /** No other candidate has a higher version, or the same version and a later row. */
  ghost predicate Newest(r: Rule, book: seq<Rule>, q: Query, operation: string) {
    && Candidate(r, book, q, operation, r.model)
    && forall s :: Candidate(s, book, q, operation, r.model) ==> s.version < r.version || (s.version == r.version && s.created <= r.created)
  }

  /** The chosen rule is the newest one for the model itself; without one, the newest generic one; without
      either, none.  A rule for the provider and one for every provider compete as equals. */
  lemma ChosenIsNewest(book: seq<Rule>, q: Query, operation: string)
    ensures var chosen := Chosen(book, q, operation);
            && (chosen.None? <==> forall r :: r in book && Applies(r, q, operation) ==> r.model != q.model && r.model.Some?)
            && (chosen.Some? ==> Newest(chosen.value, book, q, operation))
            && (chosen.Some? && chosen.value.model != q.model ==>
                  chosen.value.model.None? && forall r :: !Candidate(r, book, q, operation, q.model))
  {
    hide Applies, Rules;
    var rules := Rules(book, q, operation);
    RulesSorted(book, q, operation);
    var exact, generic := FirstFor(rules, q.model), FirstFor(rules, None);
    if exact.Some? {
      FirstIsNewest(book, q, operation, q.model);
    } else if generic.Some? {
      FirstIsNewest(book, q, operation, None);
    }
  }

  lemma FirstIsNewest(book: seq<Rule>, q: Query, operation: string, model: Option<string>)
    requires FirstFor(Rules(book, q, operation), model).Some?
    ensures var r := FirstFor(Rules(book, q, operation), model).value;
            r.model == model && Newest(r, book, q, operation)
  {
    hide Applies, Rules;
    var rules := Rules(book, q, operation);
    RulesSorted(book, q, operation);
    var r := FirstFor(rules, model).value;
    var i :| 0 <= i < |rules| && r == rules[i] && rules[i].model == model && forall j :: 0 <= j < i ==> rules[j].model != model;
    forall s | Candidate(s, book, q, operation, model)
      ensures s.version < r.version || (s.version == r.version && s.created <= r.created)
    {
      var j :| 0 <= j < |rules| && rules[j] == s;
      assert i <= j;
    }
  }

  /** A rule that ends when its successor begins hands over without gap or overlap: from the start of the first to
      the end of the second exactly one of them is in force. */
  lemma HandoverSeamless(a: Rule, b: Rule, q: Query)
    requires a.effectiveUntil == Some(b.effectiveFrom) && a.effectiveFrom <= b.effectiveFrom
    requires a.provider == b.provider == q.provider && a.operation == b.operation && a.model == b.model == q.model
    requires a.active && b.active && a.effectiveFrom <= q.at && (b.effectiveUntil.Some? ==> q.at < b.effectiveUntil.value)
    ensures Applies(a, q, a.operation) <==> q.at < b.effectiveFrom
    ensures Applies(b, q, a.operation) <==> q.at >= b.effectiveFrom
  {
  }

  // ---- the price of a component ---------------------------------------------

  datatype Price = Price(customer: int, provider: int, rule: Option<Rule>)

  /** What the provider charges, before rounding. */
  function Cost(r: Rule, quantity: real): real {
    r.pricePerUnit * quantity
  }

  function Marked(x: real, markup: real): real {
    x * (1.0 + markup)
  }

  function MarkupOn(x: real, markup: real): real {
    x * markup
  }

  function PriceBy(r: Rule, quantity: real): Price {
    var provider := Round(Cost(r, quantity));
    Price(Round(Marked(provider as real, r.markup)), provider, Some(r))
  }

  function PriceOf(book: seq<Rule>, q: Query, operation: string, quantity: real): Price {
    var rule := Chosen(book, q, operation);
    if rule.None? || quantity <= 0.0 then Price(0, 0, None) else PriceBy(rule.value, quantity)
  }

  ghost predicate SaneRule(r: Rule) {
    r.pricePerUnit >= 0.0 && r.markup >= -1.0
  }

  /** What the columns of the price book are meant to hold: no negative price, no markup below minus one. */
  ghost predicate Sane(book: seq<Rule>) {
    forall r :: r in book ==> SaneRule(r)
  }

  /** The exact, unrounded price. */
  function Exact(r: Rule, quantity: real): real {
    r.pricePerUnit * quantity * (1.0 + r.markup)
  }

  function ProviderExact(r: Rule, quantity: real): real {
    r.pricePerUnit * quantity
  }

  lemma ExactIsMarked(r: Rule, quantity: real)
    ensures Exact(r, quantity) == Marked(Cost(r, quantity), r.markup)
    ensures Cost(r, quantity) == ProviderExact(r, quantity)
  {
  }

  lemma ScaleKeepsOrder(x: real, y: real, factor: real)
    requires x <= y && factor >= 0.0
    ensures x * factor <= y * factor
  {
    assert y * factor - x * factor == (y - x) * factor;
  }

  lemma CostMonotone(r: Rule, a: real, b: real)
    requires r.pricePerUnit >= 0.0 && a <= b
    ensures Cost(r, a) <= Cost(r, b)
    ensures Cost(r, 0.0) == 0.0
  {
    ScaleKeepsOrder(a, b, r.pricePerUnit);
  }

  lemma MarkedMonotone(x: real, y: real, markup: real)
    requires markup >= -1.0 && x <= y
    ensures Marked(x, markup) <= Marked(y, markup)
    ensures Marked(0.0, markup) == 0.0
  {
    ScaleKeepsOrder(x, y, 1.0 + markup);
  }

  lemma MarkedAdds(x: real, y: real, markup: real)
    ensures Marked(x + y, markup) == Marked(x, markup) + Marked(y, markup)
    ensures Marked(1.0, markup) == 1.0 + markup
  {
    assert (x + y) * (1.0 + markup) == x * (1.0 + markup) + y * (1.0 + markup);
  }

  /** The customer pays at least the provider's cost exactly when the markup takes off less than one quantum. */
  lemma CustomerCoversProvider(r: Rule, quantity: real)
    requires r.pricePerUnit >= 0.0 && quantity > 0.0
    ensures var p := PriceBy(r, quantity);
            p.provider >= 0 && (p.provider <= p.customer <==> MarkupOn(p.provider as real, r.markup) > -1.0)
  {
    hide Cost, Marked, MarkupOn, Round;
    CostMonotone(r, 0.0, quantity);
    NonnegativeRound(Cost(r, quantity));
    var p := PriceBy(r, quantity);
    MarkedSplits(p.provider as real, r.markup);
    RoundCovers(p.provider, MarkupOn(p.provider as real, r.markup));
  }

  lemma RoundCovers(provider: int, extra: real)
    requires provider >= 0 && (provider == 0 ==> extra == 0.0)
    ensures provider <= Round(provider as real + extra) <==> extra > -1.0
  {
    hide Round;
    var x := provider as real + extra;
    RoundMeaning(x, Round(x));
  }

  lemma MarkedSplits(x: real, markup: real)
    ensures Marked(x, markup) == x + MarkupOn(x, markup)
    ensures x == 0.0 ==> MarkupOn(x, markup) == 0.0
  {
  }

  /** Rounding twice adds less than two quanta and the markup of one. */
  lemma PriceNearExact(r: Rule, quantity: real)
    requires SaneRule(r) && quantity > 0.0
    ensures var p := PriceBy(r, quantity);
            Exact(r, quantity) <= p.customer as real < Exact(r, quantity) + 2.0 + r.markup
    ensures var p := PriceBy(r, quantity);
            ProviderExact(r, quantity) <= p.provider as real < ProviderExact(r, quantity) + 1.0
  {
    ExactIsMarked(r, quantity);
    hide Cost, Marked, Round, Exact, ProviderExact;
    var cost := Cost(r, quantity);
    CostMonotone(r, 0.0, quantity);
    var provider := Round(cost);
    RoundMeaning(cost, provider);
    MarkedMonotone(0.0, cost, r.markup);
    MarkedMonotone(cost, provider as real, r.markup);
    MarkedMonotone(provider as real, cost + 1.0, r.markup);
    MarkedAdds(cost, 1.0, r.markup);
    var x := Marked(provider as real, r.markup);
    RoundMeaning(x, Round(x));
  }

  lemma PriceByMonotone(r: Rule, a: real, b: real)
    requires SaneRule(r) && a <= b
    ensures PriceBy(r, a).customer <= PriceBy(r, b).customer && PriceBy(r, a).provider <= PriceBy(r, b).provider
  {
    hide Round, Cost, Marked;
    CostMonotone(r, a, b);
    RoundMonotone(Cost(r, a), Cost(r, b));
    var x, y := PriceBy(r, a).provider as real, PriceBy(r, b).provider as real;
    MarkedMonotone(x, y, r.markup);
    RoundMonotone(Marked(x, r.markup), Marked(y, r.markup));
  }

  lemma NonnegativeRound(x: real)
    requires x >= 0.0
    ensures Round(x) >= 0
  {
  }

  lemma CostAdds(r: Rule, a: real, b: real)
    ensures Cost(r, a + b) == Cost(r, a) + Cost(r, b)
  {
    assert r.pricePerUnit * (a + b) == r.pricePerUnit * a + r.pricePerUnit * b;
  }

  lemma PriceBySubadditive(r: Rule, a: real, b: real)
    requires SaneRule(r) && a >= 0.0 && b >= 0.0
    ensures PriceBy(r, a + b).customer <= PriceBy(r, a).customer + PriceBy(r, b).customer
    ensures PriceBy(r, a).customer >= 0
  {
    hide Round, Cost, Marked;
    CostMonotone(r, 0.0, a);
    CostMonotone(r, 0.0, b);
    CostAdds(r, a, b);
    RoundSubadditive(Cost(r, a), Cost(r, b));
    NonnegativeRound(Cost(r, a));
    NonnegativeRound(Cost(r, b));
    var x, y, both := PriceBy(r, a).provider as real, PriceBy(r, b).provider as real, PriceBy(r, a + b).provider as real;
    MarkedMonotone(both, x + y, r.markup);
    MarkedMonotone(0.0, x, r.markup);
    MarkedMonotone(0.0, y, r.markup);
    MarkedAdds(x, y, r.markup);
    RoundMonotone(Marked(both, r.markup), Marked(x + y, r.markup));
    RoundSubadditive(Marked(x, r.markup), Marked(y, r.markup));
    NonnegativeRound(Marked(x, r.markup));
  }

  lemma ChosenIsSane(book: seq<Rule>, q: Query, operation: string)
    requires Sane(book)
    ensures var r := Chosen(book, q, operation); r.Some? ==> SaneRule(r.value)
  {
    hide Chosen, Applies, SaneRule;
    ChosenIsNewest(book, q, operation);
  }

  /** For every price book and all quantities, positive or not, more usage never costs less, and usage billed
      in two parts never costs less than usage billed at once. */
  lemma SplittingNeverSaves(book: seq<Rule>, q: Query, operation: string, a: real, b: real)
    requires Sane(book)
    ensures a <= b ==> PriceOf(book, q, operation, a).customer <= PriceOf(book, q, operation, b).customer
    ensures PriceOf(book, q, operation, a + b).customer
         <= PriceOf(book, q, operation, a).customer + PriceOf(book, q, operation, b).customer
  {
    hide Chosen, PriceBy;
    var rule := Chosen(book, q, operation);
    ChosenIsSane(book, q, operation);
    if rule.Some? {
      var r := rule.value;
      if a > 0.0 { PriceBySubadditive(r, a, Pos(b)); }
      if b > 0.0 { PriceBySubadditive(r, b, Pos(a)); }
      if a > 0.0 && a <= b { PriceByMonotone(r, a, b); }
      if a > 0.0 && b <= 0.0 { PriceByMonotone(r, a + b, a); }
      if b > 0.0 && a <= 0.0 { PriceByMonotone(r, a + b, b); }
    }
  }

  function Pos(x: real): real {
    if x > 0.0 then x else 0.0
  }

  // ---- the price of a request -----------------------------------------------

  datatype Usage = Usage(operation: string, quantity: real)
  datatype Component = Component(operation: string, quantity: real, price: Price)
  datatype Quote = Quote(amount: int, providerCost: int, markup: int, components: seq<Component>)

  /** The metered quantities of a request. */
  datatype Meters = Meters(inputTokens: int, outputTokens: int, cachedTokens: int, embeddingTokens: int,
                           vectorSearches: int, reranks: int, storageBytes: int, requests: int)

  function Metered(m: Meters): seq<Usage> {
    [ Usage("input_tokens", m.inputTokens as real), Usage("output_tokens", m.outputTokens as real),
      Usage("cached_tokens", m.cachedTokens as real), Usage("embeddings", m.embeddingTokens as real),
      Usage("vector_search", m.vectorSearches as real), Usage("reranking", m.reranks as real),
      Usage("storage", m.storageBytes as real), Usage("invoke", m.requests as real) ]
  }

  predicate Listed(components: seq<Component>, operation: string) {
    exists i | 0 <= i < |components| :: components[i].operation == operation
  }

  /** The components of a list of usages: one for each that is positive, not yet listed and has a rule. */
  function Components(book: seq<Rule>, q: Query, usages: seq<Usage>): seq<Component> {
    if usages == [] then []
    else
      var n := |usages| - 1;
      var u := usages[n];
      var before := Components(book, q, usages[..n]);
      if Billable(book, q, u) && !Listed(before, u.operation)
      then before + [Component(u.operation, u.quantity, PriceOf(book, q, u.operation, u.quantity))]
      else before
  }

  predicate Billable(book: seq<Rule>, q: Query, u: Usage) {
    u.quantity > 0.0 && Chosen(book, q, u.operation).Some?
  }

  function Customer(c: Component): int { c.price.customer }
  function Provider(c: Component): int { c.price.provider }

  /** A positive meter whose operation has a rule is one component, with the meter as its quantity and the price of
      that quantity; whatever the resources say of the operation, there is no other. */
  ghost predicate MeterPriced(book: seq<Rule>, q: Query, components: seq<Component>, operation: string, meter: int) {
    meter > 0 && Chosen(book, q, operation).Some? ==>
      exists i :: 0 <= i < |components|
        && components[i] == Component(operation, meter as real, PriceOf(book, q, operation, meter as real))
        && forall j :: 0 <= j < |components| && components[j].operation == operation ==> j == i
  }

  ghost predicate MetersPriced(book: seq<Rule>, q: Query, components: seq<Component>, m: Meters) {
    && MeterPriced(book, q, components, "input_tokens", m.inputTokens)
    && MeterPriced(book, q, components, "output_tokens", m.outputTokens)
    && MeterPriced(book, q, components, "cached_tokens", m.cachedTokens)
    && MeterPriced(book, q, components, "embeddings", m.embeddingTokens)
    && MeterPriced(book, q, components, "vector_search", m.vectorSearches)
    && MeterPriced(book, q, components, "reranking", m.reranks)
    && MeterPriced(book, q, components, "storage", m.storageBytes)
    && MeterPriced(book, q, components, "invoke", m.requests)
  }

  lemma UsagePriced(book: seq<Rule>, q: Query, usages: seq<Usage>, k: nat, operation: string, meter: int)
    requires k < |usages| && usages[k] == Usage(operation, meter as real)
    requires forall j :: 0 <= j < k ==> usages[j].operation != operation
    ensures MeterPriced(book, q, Components(book, q, usages), operation, meter)
  {
    hide Chosen, PriceOf, Components, FirstBillable;
    if Billable(book, q, usages[k]) {
      assert IsFirst(book, q, usages, operation, k);
      FirstIsUnique(book, q, usages, operation, k);
      ComponentsExact(book, q, usages, operation);
      var cs := Components(book, q, usages);
      var i :| 0 <= i < |cs| && cs[i].operation == operation;
      assert cs[i] == Component(operation, meter as real, PriceOf(book, q, operation, meter as real));
    }
  }

  lemma AllMetersPriced(book: seq<Rule>, q: Query, m: Meters, resources: seq<Usage>)
    ensures MetersPriced(book, q, Components(book, q, Metered(m) + resources), m)
  {
    var usages := Metered(m) + resources;
    DistinctMeters(m);
    assert forall k :: 0 <= k < 8 ==> usages[k] == Metered(m)[k];
    hide MeterPriced, Components;
    UsagePriced(book, q, usages, 0, "input_tokens", m.inputTokens);
    UsagePriced(book, q, usages, 1, "output_tokens", m.outputTokens);
    UsagePriced(book, q, usages, 2, "cached_tokens", m.cachedTokens);
    UsagePriced(book, q, usages, 3, "embeddings", m.embeddingTokens);
    UsagePriced(book, q, usages, 4, "vector_search", m.vectorSearches);
    UsagePriced(book, q, usages, 5, "reranking", m.reranks);
    UsagePriced(book, q, usages, 6, "storage", m.storageBytes);
    UsagePriced(book, q, usages, 7, "invoke", m.requests);
  }

  /** The price of a request; `resources` are the entries of the resource dictionary in order. */
  method Calculate(book: seq<Rule>, q: Query, meters: Meters, resources: seq<Usage>) returns (quote: Quote)
    ensures quote.components == Components(book, q, Metered(meters) + resources)
    ensures quote.amount == Sum(quote.components, Customer)
    ensures quote.providerCost == Sum(quote.components, Provider)
    ensures quote.markup == quote.amount - quote.providerCost
    ensures MetersPriced(book, q, quote.components, meters)
    ensures Sane(book) ==> quote.markup == Sum(quote.components, MarkupQuanta)
    ensures Sane(book) && NoDiscounts(book) ==> quote.markup >= 0
  {
    hide Chosen, PriceBy, Metered, MetersPriced;
    var usages := Metered(meters);
    DistinctMeters(meters);
    var components: seq<Component> := [];
    for i := 0 to |usages|
      invariant components == Components(book, q, usages[..i])
    {
      assert usages[..i + 1][..i] == usages[..i];
      var u := usages[i];
      ListedAmong(book, q, usages[..i], u.operation);
      if u.quantity > 0.0 {
        var p := PriceOf(book, q, u.operation, u.quantity);
        PriceTellsRule(book, q, u.operation, u.quantity);
        if p.rule.Some? {
          components := components + [Component(u.operation, u.quantity, p)];
        }
      }
    }
    assert usages[..|usages|] == usages == usages + resources[..0];
    for i := 0 to |resources|
      invariant components == Components(book, q, usages + resources[..i])
    {
      var u := resources[i];
      assert (usages + resources[..i + 1])[..|usages| + i] == usages + resources[..i];
      if u.quantity > 0.0 && !Listed(components, u.operation) {
        var p := PriceOf(book, q, u.operation, u.quantity);
        PriceTellsRule(book, q, u.operation, u.quantity);
        if p.rule.Some? {
          components := components + [Component(u.operation, u.quantity, p)];
        }
      }
    }
    assert resources[..|resources|] == resources;
    var customerTotal, providerTotal := 0, 0;
    for i := 0 to |components|
      invariant customerTotal == Sum(components[..i], Customer) && providerTotal == Sum(components[..i], Provider)
    {
      assert components[..i + 1][..i] == components[..i];
      customerTotal := customerTotal + components[i].price.customer;
      providerTotal := providerTotal + components[i].price.provider;
    }
    assert components[..|components|] == components;
    AllMetersPriced(book, q, meters, resources);
    if Sane(book) {
      AmountCoversCost(book, q, usages + resources);
    }
    return Quote(Round(customerTotal as real), Round(providerTotal as real), Round((customerTotal - providerTotal) as real), components);
  }

  lemma PriceTellsRule(book: seq<Rule>, q: Query, operation: string, quantity: real)
    requires quantity > 0.0
    ensures PriceOf(book, q, operation, quantity).rule == Chosen(book, q, operation)
  {
  }

  ghost predicate Distinct(usages: seq<Usage>) {
    forall i, j :: 0 <= i < j < |usages| ==> usages[i].operation != usages[j].operation
  }

  lemma DistinctMeters(m: Meters)
    ensures Distinct(Metered(m))
  {
    assert "input_tokens"[0] == 'i' && "invoke"[0] == 'i' && "input_tokens"[2] == 'p' && "invoke"[2] == 'v';
  }

  /** Every component comes from a usage, its operation is listed once, and it is the first billable one. */
  lemma {:induction false} ComponentsExact(book: seq<Rule>, q: Query, usages: seq<Usage>, operation: string)
    ensures var cs := Components(book, q, usages);
            && (Listed(cs, operation) <==> FirstBillable(book, q, usages, operation).Some?)
            && (forall i :: 0 <= i < |cs| && cs[i].operation == operation ==>
                  FirstBillable(book, q, usages, operation) == Some(cs[i].quantity)
                  && cs[i].price == PriceOf(book, q, operation, cs[i].quantity))
            && (forall i, j :: 0 <= i < j < |cs| && cs[i].operation == operation ==> cs[j].operation != operation)
  {
    hide Chosen, PriceOf, Billable;
    if usages != [] {
      var n := |usages| - 1;
      ComponentsExact(book, q, usages[..n], operation);
      var before := Components(book, q, usages[..n]);
      var u := usages[n];
      if Billable(book, q, u) && !Listed(before, u.operation) {
        var c := Component(u.operation, u.quantity, PriceOf(book, q, u.operation, u.quantity));
        assert (before + [c])[|before|] == c;
        assert forall i :: 0 <= i < |before| ==> (before + [c])[i] == before[i];
      }
    }
  }

  /** The quantity of the first usage of an operation that is positive and has a rule. */
  function FirstBillable(book: seq<Rule>, q: Query, usages: seq<Usage>, operation: string): Option<real> {
    if usages == [] then None
    else
      var n := |usages| - 1;
      var before := FirstBillable(book, q, usages[..n], operation);
      if before.Some? then before
      else if usages[n].operation == operation && Billable(book, q, usages[n]) then Some(usages[n].quantity)
      else None
  }

  lemma {:induction false} ListedAmong(book: seq<Rule>, q: Query, usages: seq<Usage>, operation: string)
    ensures Listed(Components(book, q, usages), operation) ==> exists i :: 0 <= i < |usages| && usages[i].operation == operation
  {
    hide Billable, PriceOf;
    if usages != [] {
      var n := |usages| - 1;
      ListedAmong(book, q, usages[..n], operation);
      assert usages[n].operation == operation || forall i :: 0 <= i < n ==> usages[..n][i] == usages[i];
    }
  }

  // ---- what a request costs -------------------------------------------------

  function Amount(book: seq<Rule>, q: Query, usages: seq<Usage>): int {
    Sum(Components(book, q, usages), Customer)
  }

  function ProviderCost(book: seq<Rule>, q: Query, usages: seq<Usage>): int {
    Sum(Components(book, q, usages), Provider)
  }

  /** What the markup adds to a component, in whole quanta: the markup on its provider cost, rounded up. */
  function MarkupQuanta(c: Component): int {
    if c.price.rule.None? then 0 else Ceiling(MarkupOn(c.price.provider as real, c.price.rule.value.markup))
  }

  ghost predicate NoDiscounts(book: seq<Rule>) {
    forall r :: r in book ==> r.markup >= 0.0
  }

  lemma CeilingShift(n: int, x: real)
    ensures Ceiling(n as real + x) == n + Ceiling(x)
  {
  }

  lemma MarkupOfOne(r: Rule, quantity: real)
    requires SaneRule(r) && quantity > 0.0
    ensures var p := PriceBy(r, quantity);
            && p.provider >= 0
            && p.customer == p.provider + Ceiling(MarkupOn(p.provider as real, r.markup))
            && (r.markup >= 0.0 ==> Ceiling(MarkupOn(p.provider as real, r.markup)) >= 0)
  {
    hide Cost, Marked, MarkupOn, Ceiling;
    CostMonotone(r, 0.0, quantity);
    NonnegativeRound(Cost(r, quantity));
    var p := PriceBy(r, quantity);
    var extra := MarkupOn(p.provider as real, r.markup);
    MarkedSplits(p.provider as real, r.markup);
    MarkedMonotone(0.0, p.provider as real, r.markup);
    CeilingShift(p.provider, extra);
    ScaledSign(p.provider as real, r.markup);
  }

  lemma ScaledSign(x: real, markup: real)
    requires x >= 0.0
    ensures markup >= 0.0 ==> MarkupOn(x, markup) >= 0.0 && Ceiling(MarkupOn(x, markup)) >= 0
  {
    if markup >= 0.0 {
      ScaleKeepsOrder(0.0, x, markup);
    }
  }

  /** The amount of a request is its provider cost and the markup quanta of its components, so it covers the
      provider cost if and only if those quanta do not sum below zero, and always when no markup is negative. */
  lemma {:induction false} AmountCoversCost(book: seq<Rule>, q: Query, usages: seq<Usage>)
    requires Sane(book)
    ensures var quanta := Sum(Components(book, q, usages), MarkupQuanta);
            && Amount(book, q, usages) == ProviderCost(book, q, usages) + quanta
            && (Amount(book, q, usages) >= ProviderCost(book, q, usages) <==> quanta >= 0)
            && (NoDiscounts(book) ==> quanta >= 0)
  {
    hide Chosen, PriceBy, Listed, SaneRule, Ceiling, MarkupOn;
    if usages != [] {
      var n := |usages| - 1;
      AmountCoversCost(book, q, usages[..n]);
      var u := usages[n];
      var before := Components(book, q, usages[..n]);
      if Billable(book, q, u) && !Listed(before, u.operation) {
        var c := Component(u.operation, u.quantity, PriceOf(book, q, u.operation, u.quantity));
        ChosenIsSane(book, q, u.operation);
        ChosenInBook(book, q, u.operation);
        PriceCarriesRule(book, q, u);
        MarkupOfOne(Chosen(book, q, u.operation).value, u.quantity);
        SumSnoc(before, c, Customer);
        SumSnoc(before, c, Provider);
        SumSnoc(before, c, MarkupQuanta);
      }
    }
  }

  lemma PriceCarriesRule(book: seq<Rule>, q: Query, u: Usage)
    requires Billable(book, q, u)
    ensures PriceOf(book, q, u.operation, u.quantity) == PriceBy(Chosen(book, q, u.operation).value, u.quantity)
    ensures PriceOf(book, q, u.operation, u.quantity).rule == Chosen(book, q, u.operation)
  {
  }

  lemma ChosenInBook(book: seq<Rule>, q: Query, operation: string)
    ensures var r := Chosen(book, q, operation); r.Some? ==> r.value in book
  {
    hide Chosen, Applies;
    ChosenIsNewest(book, q, operation);
  }

  function UsagePrice(book: seq<Rule>, q: Query): Usage -> int {
    (u: Usage) => PriceOf(book, q, u.operation, u.quantity).customer
  }

  /** When no operation is named twice the amount is the sum of what each usage costs by itself. */
  lemma {:induction false} AmountByUsage(book: seq<Rule>, q: Query, usages: seq<Usage>)
    requires Distinct(usages)
    ensures Amount(book, q, usages) == Sum(usages, UsagePrice(book, q))
  {
    hide Chosen, PriceBy, Listed;
    if usages != [] {
      var n := |usages| - 1;
      AmountByUsage(book, q, usages[..n]);
      ListedAmong(book, q, usages[..n], usages[n].operation);
      var before := Components(book, q, usages[..n]);
      var u := usages[n];
      SumSnoc(before, Component(u.operation, u.quantity, PriceOf(book, q, u.operation, u.quantity)), Customer);
    }
  }

  // ---- billing in two parts -------------------------------------------------

  /** The first usage of an operation that is positive and has a rule. */
  ghost predicate IsFirst(book: seq<Rule>, q: Query, usages: seq<Usage>, operation: string, i: nat)
    requires i < |usages|
  {
    && usages[i].operation == operation && Billable(book, q, usages[i])
    && forall j :: 0 <= j < i && usages[j].operation == operation ==> !Billable(book, q, usages[j])
  }

  lemma {:induction false} FirstHasPlace(book: seq<Rule>, q: Query, usages: seq<Usage>, operation: string)
    ensures var first := FirstBillable(book, q, usages, operation);
            first.Some? ==> exists i :: 0 <= i < |usages| && IsFirst(book, q, usages, operation, i) && usages[i].quantity == first.value
    ensures FirstBillable(book, q, usages, operation).None? ==>
              forall i :: 0 <= i < |usages| && usages[i].operation == operation ==> !Billable(book, q, usages[i])
  {
    hide Billable;
    if usages != [] {
      var n := |usages| - 1;
      FirstHasPlace(book, q, usages[..n], operation);
      var before := FirstBillable(book, q, usages[..n], operation);
      if before.Some? {
        var i :| 0 <= i < n && IsFirst(book, q, usages[..n], operation, i) && usages[..n][i].quantity == before.value;
        assert forall j :: 0 <= j <= i ==> usages[..n][j] == usages[j];
        assert IsFirst(book, q, usages, operation, i);
      } else {
        assert forall j :: 0 <= j < n ==> usages[..n][j] == usages[j];
        if usages[n].operation == operation && Billable(book, q, usages[n]) {
          assert IsFirst(book, q, usages, operation, n);
        }
      }
    }
  }

  lemma FirstIsUnique(book: seq<Rule>, q: Query, usages: seq<Usage>, operation: string, i: nat)
    requires i < |usages| && IsFirst(book, q, usages, operation, i)
    ensures FirstBillable(book, q, usages, operation) == Some(usages[i].quantity)
  {
    hide Billable, FirstBillable;
    FirstHasPlace(book, q, usages, operation);
    var j :| 0 <= j < |usages| && IsFirst(book, q, usages, operation, j)
             && usages[j].quantity == FirstBillable(book, q, usages, operation).value;
    assert i == j;
  }

  /** What a request is charged for one operation. */
  function Charge(book: seq<Rule>, q: Query, usages: seq<Usage>): string -> int {
    (operation: string) =>
      var first := FirstBillable(book, q, usages, operation);
      if first.None? then 0 else PriceOf(book, q, operation, first.value).customer
  }

  ghost predicate NoTwice(operations: seq<string>) {
    forall i, j :: 0 <= i < j < |operations| ==> operations[i] != operations[j]
  }

  function Operations(usages: seq<Usage>): (r: seq<string>)
    ensures forall i :: 0 <= i < |usages| ==> usages[i].operation in r
  {
    if usages == [] then []
    else
      var n := |usages| - 1;
      var before := Operations(usages[..n]);
      assert forall i :: 0 <= i < n ==> usages[..n][i] == usages[i];
      if usages[n].operation in before then before else before + [usages[n].operation]
  }

  lemma {:induction false} OperationsDiffer(usages: seq<Usage>)
    ensures NoTwice(Operations(usages))
  {
    if usages != [] {
      OperationsDiffer(usages[..|usages| - 1]);
    }
  }

  /** The usage that comes last adds a component. */
  predicate Adds(book: seq<Rule>, q: Query, usages: seq<Usage>)
    requires usages != []
  {
    var n := |usages| - 1;
    Billable(book, q, usages[n]) && !Listed(Components(book, q, usages[..n]), usages[n].operation)
  }

  lemma AmountStep(book: seq<Rule>, q: Query, usages: seq<Usage>)
    requires usages != []
    ensures var n := |usages| - 1;
            Amount(book, q, usages) == Amount(book, q, usages[..n])
              + if Adds(book, q, usages) then PriceOf(book, q, usages[n].operation, usages[n].quantity).customer else 0
  {
    hide PriceOf, Billable, Listed;
    var n := |usages| - 1;
    var u := usages[n];
    SumSnoc(Components(book, q, usages[..n]), Component(u.operation, u.quantity, PriceOf(book, q, u.operation, u.quantity)), Customer);
  }

  lemma ChargeStep(book: seq<Rule>, q: Query, usages: seq<Usage>, operation: string)
    requires usages != []
    ensures var n := |usages| - 1;
            var u := usages[n];
            Charge(book, q, usages)(operation)
            == Charge(book, q, usages[..n])(operation)
               + if Adds(book, q, usages) && operation == u.operation then PriceOf(book, q, u.operation, u.quantity).customer else 0
  {
    hide PriceOf, Billable, Listed, Components;
    var n := |usages| - 1;
    ComponentsExact(book, q, usages[..n], usages[n].operation);
  }

  /** The amount is the sum of the charges for the operations, each listed once. */
  lemma {:induction false} AmountByOperation(book: seq<Rule>, q: Query, usages: seq<Usage>, operations: seq<string>)
    requires NoTwice(operations) && forall i :: 0 <= i < |usages| ==> usages[i].operation in operations
    ensures Amount(book, q, usages) == Sum(operations, Charge(book, q, usages))
  {
    hide PriceOf, Amount, Charge, Adds, Sum;
    if usages == [] {
      NothingCharged(book, q, operations);
    } else {
      var n := |usages| - 1;
      assert forall i :: 0 <= i < n ==> usages[..n][i] == usages[i];
      AmountByOperation(book, q, usages[..n], operations);
      AmountStep(book, q, usages);
      var at :| 0 <= at < |operations| && operations[at] == usages[n].operation;
      forall i | 0 <= i < |operations|
        ensures i != at ==> Charge(book, q, usages)(operations[i]) == Charge(book, q, usages[..n])(operations[i])
      {
        ChargeStep(book, q, usages, operations[i]);
      }
      ChargeStep(book, q, usages, operations[at]);
      SumDiffersAt(operations, at, Charge(book, q, usages), Charge(book, q, usages[..n]));
    }
  }

  lemma NothingCharged(book: seq<Rule>, q: Query, operations: seq<string>)
    ensures Amount(book, q, []) == 0 == Sum(operations, Charge(book, q, []))
  {
    SumZero(operations, Charge(book, q, []));
  }

  ghost predicate SameOperations(a: seq<Usage>, b: seq<Usage>) {
    |a| == |b| && forall i :: 0 <= i < |a| ==> a[i].operation == b[i].operation
  }

  /** An operation that is named twice has no negative quantity. */
  ghost predicate RepeatsNonNegative(usages: seq<Usage>) {
    forall i, j :: 0 <= i < |usages| && 0 <= j < |usages| && i != j && usages[i].operation == usages[j].operation ==>
      usages[i].quantity >= 0.0
  }

  function Together(a: seq<Usage>, b: seq<Usage>): (r: seq<Usage>)
    requires |a| == |b|
    ensures |r| == |a| && forall i :: 0 <= i < |a| ==> r[i] == Usage(a[i].operation, a[i].quantity + b[i].quantity)
  {
    seq(|a|, i requires 0 <= i < |a| => Usage(a[i].operation, a[i].quantity + b[i].quantity))
  }

  lemma PriceNonNegative(book: seq<Rule>, q: Query, operation: string, quantity: real)
    requires Sane(book)
    ensures PriceOf(book, q, operation, quantity).customer >= 0
  {
    hide Chosen, PriceBy;
    ChosenIsSane(book, q, operation);
    if Chosen(book, q, operation).Some? && quantity > 0.0 {
      PriceBySubadditive(Chosen(book, q, operation).value, quantity, 0.0);
    }
  }

  /** A usage with nothing positive of its operation before it costs no more than the operation is charged. */
  lemma ChargedAtLeast(book: seq<Rule>, q: Query, usages: seq<Usage>, i: nat)
    requires Sane(book) && i < |usages|
    requires forall j :: 0 <= j < i && usages[j].operation == usages[i].operation ==> !Billable(book, q, usages[j])
    ensures PriceOf(book, q, usages[i].operation, usages[i].quantity).customer
         <= Charge(book, q, usages)(usages[i].operation)
  {
    hide Chosen, PriceBy, FirstBillable;
    var operation := usages[i].operation;
    var first := FirstBillable(book, q, usages, operation);
    if first.Some? {
      PriceNonNegative(book, q, operation, first.value);
    }
    if Billable(book, q, usages[i]) {
      FirstIsUnique(book, q, usages, operation, i);
    }
  }

  lemma SplitOperation(book: seq<Rule>, q: Query, a: seq<Usage>, b: seq<Usage>, operation: string)
    requires Sane(book) && SameOperations(a, b) && RepeatsNonNegative(a) && RepeatsNonNegative(b)
    ensures Charge(book, q, Together(a, b))(operation) <= Charge(book, q, a)(operation) + Charge(book, q, b)(operation)
  {
    hide Chosen, PriceOf, FirstBillable, Sane;
    var whole := Together(a, b);
    FirstHasPlace(book, q, whole, operation);
    if FirstBillable(book, q, whole, operation).None? {
      ChargeNonNegative(book, q, a, operation);
      ChargeNonNegative(book, q, b, operation);
    } else {
      var i :| 0 <= i < |whole| && IsFirst(book, q, whole, operation, i)
               && whole[i].quantity == FirstBillable(book, q, whole, operation).value;
      forall j | 0 <= j < i && a[j].operation == operation
        ensures !Billable(book, q, a[j]) && !Billable(book, q, b[j])
      {
        assert !Billable(book, q, whole[j]) && whole[j].operation == operation;
        assert a[i].operation == b[i].operation == operation;
      }
      ChargedAtLeast(book, q, a, i);
      ChargedAtLeast(book, q, b, i);
      SplittingNeverSaves(book, q, operation, a[i].quantity, b[i].quantity);
    }
  }

  lemma ChargeNonNegative(book: seq<Rule>, q: Query, usages: seq<Usage>, operation: string)
    requires Sane(book)
    ensures Charge(book, q, usages)(operation) >= 0
  {
    hide Chosen, PriceOf, Sane;
    var first := FirstBillable(book, q, usages, operation);
    if first.Some? {
      PriceNonNegative(book, q, operation, first.value);
    }
  }

  lemma {:induction false} SumSplits(operations: seq<string>, whole: string -> int, a: string -> int, b: string -> int)
    requires forall i :: 0 <= i < |operations| ==> whole(operations[i]) <= a(operations[i]) + b(operations[i])
    ensures Sum(operations, whole) <= Sum(operations, a) + Sum(operations, b)
  {
    if operations != [] {
      SumSplits(operations[..|operations| - 1], whole, a, b);
    }
  }

  /** A request billed in two parts never costs less than billed at once, even if a resource repeats a metered
      operation, unless an operation is named twice and one of its quantities is negative. */
  lemma SplitRequestNeverSaves(book: seq<Rule>, q: Query, a: seq<Usage>, b: seq<Usage>)
    requires Sane(book) && SameOperations(a, b) && RepeatsNonNegative(a) && RepeatsNonNegative(b)
    ensures Amount(book, q, Together(a, b)) <= Amount(book, q, a) + Amount(book, q, b)
  {
    hide Amount, Charge, Sane;
    var operations := Operations(a);
    OperationsDiffer(a);
    AmountByOperation(book, q, a, operations);
    AmountByOperation(book, q, b, operations);
    AmountByOperation(book, q, Together(a, b), operations);
    forall i | 0 <= i < |operations|
      ensures Charge(book, q, Together(a, b))(operations[i])
           <= Charge(book, q, a)(operations[i]) + Charge(book, q, b)(operations[i])
    {
      SplitOperation(book, q, a, b, operations[i]);
    }
    SumSplits(operations, Charge(book, q, Together(a, b)), Charge(book, q, a), Charge(book, q, b));
  }

  /** The first positive quantity of an operation, or nothing. */
  function FirstPositive(usages: seq<Usage>, operation: string): (x: real)
    ensures x >= 0.0
  {
    if usages == [] then 0.0
    else
      var n := |usages| - 1;
      var before := FirstPositive(usages[..n], operation);
      if before > 0.0 then before
      else if usages[n].operation == operation && usages[n].quantity > 0.0 then usages[n].quantity
      else 0.0
  }

  lemma {:induction false} BillableIsPositive(book: seq<Rule>, q: Query, usages: seq<Usage>, operation: string)
    ensures FirstBillable(book, q, usages, operation)
         == if Chosen(book, q, operation).Some? && FirstPositive(usages, operation) > 0.0
            then Some(FirstPositive(usages, operation)) else None
  {
    hide Chosen;
    if usages != [] {
      BillableIsPositive(book, q, usages[..|usages| - 1], operation);
    }
  }

  /** What an operation is charged is the price of its first positive quantity. */
  lemma ChargeIsPrice(book: seq<Rule>, q: Query, usages: seq<Usage>, operation: string)
    ensures Charge(book, q, usages)(operation) == PriceOf(book, q, operation, FirstPositive(usages, operation)).customer
  {
    hide Chosen, FirstBillable, PriceBy;
    BillableIsPositive(book, q, usages, operation);
  }

  ghost predicate NeverSaves(book: seq<Rule>, q: Query, a: seq<Usage>, b: seq<Usage>)
    requires |a| == |b|
  {
    Amount(book, q, Together(a, b)) <= Amount(book, q, a) + Amount(book, q, b)
  }

  /** For every operation the whole's first positive quantity is at most those of the parts together. */
  ghost predicate PartsCover(a: seq<Usage>, b: seq<Usage>)
    requires |a| == |b|
  {
    forall operation :: FirstPositive(Together(a, b), operation) <= FirstPositive(a, operation) + FirstPositive(b, operation)
  }

  lemma CoveredNeverSaves(book: seq<Rule>, q: Query, a: seq<Usage>, b: seq<Usage>)
    requires Sane(book) && SameOperations(a, b) && PartsCover(a, b)
    ensures NeverSaves(book, q, a, b)
  {
    hide Amount, Charge, Sane, FirstPositive, PriceOf;
    var whole := Together(a, b);
    var operations := Operations(a);
    OperationsDiffer(a);
    AmountByOperation(book, q, a, operations);
    AmountByOperation(book, q, b, operations);
    AmountByOperation(book, q, whole, operations);
    forall i | 0 <= i < |operations|
      ensures Charge(book, q, whole)(operations[i]) <= Charge(book, q, a)(operations[i]) + Charge(book, q, b)(operations[i])
    {
      var x, y := FirstPositive(a, operations[i]), FirstPositive(b, operations[i]);
      ChargeIsPrice(book, q, a, operations[i]);
      ChargeIsPrice(book, q, b, operations[i]);
      ChargeIsPrice(book, q, whole, operations[i]);
      SplittingNeverSaves(book, q, operations[i], FirstPositive(whole, operations[i]), x + y);
      SplittingNeverSaves(book, q, operations[i], x, y);
    }
    SumSplits(operations, Charge(book, q, whole), Charge(book, q, a), Charge(book, q, b));
  }

  /** A rule for one operation, at a price and without markup, and a book of nothing else. */
  function OnlyRule(q: Query, operation: string, price: real): Rule {
    Rule("*", operation, None, price, 0.0, q.at, None, 1, q.at, true)
  }

  lemma OnlyRuleChosen(q: Query, operation: string, price: real, other: string)
    ensures Chosen([OnlyRule(q, operation, price)], q, other)
         == if other == operation then Some(OnlyRule(q, operation, price)) else None
  {
    var r := OnlyRule(q, operation, price);
    assert [r][..0] == [];
    assert Rules([], q, other) == [];
    assert Rules([r], q, other) == if other == operation then [r] else [];
  }

  /** Such a book charges that operation only. */
  lemma OnlyRuleAmount(q: Query, operation: string, price: real, usages: seq<Usage>)
    ensures var book := [OnlyRule(q, operation, price)];
            Amount(book, q, usages) == PriceOf(book, q, operation, FirstPositive(usages, operation)).customer
  {
    hide Chosen, Amount, PriceBy, OnlyRule;
    var book := [OnlyRule(q, operation, price)];
    var operations := Operations(usages);
    OperationsDiffer(usages);
    AmountByOperation(book, q, usages, operations);
    forall other
      ensures Charge(book, q, usages)(other) == if other == operation then PriceOf(book, q, operation, FirstPositive(usages, operation)).customer else 0
    {
      ChargeIsPrice(book, q, usages, other);
      OnlyRuleChosen(q, operation, price, other);
    }
    hide Charge, PriceOf;
    if operation in operations {
      SumOnly(operations, operation, Charge(book, q, usages));
    } else {
      SumZero(operations, Charge(book, q, usages));
      NothingPositive(usages, operation);
      PriceOfNothing(book, q, operation);
    }
  }

  lemma PriceOfNothing(book: seq<Rule>, q: Query, operation: string)
    ensures PriceOf(book, q, operation, 0.0).customer == 0
  {
  }

  lemma {:induction false} NothingPositive(usages: seq<Usage>, operation: string)
    requires forall i :: 0 <= i < |usages| ==> usages[i].operation != operation
    ensures FirstPositive(usages, operation) == 0.0
  {
    if usages != [] {
      NothingPositive(usages[..|usages| - 1], operation);
    }
  }

  lemma {:induction false} SumOnly(operations: seq<string>, operation: string, f: string -> int)
    requires NoTwice(operations) && operation in operations
    requires forall other :: other != operation ==> f(other) == 0
    ensures Sum(operations, f) == f(operation)
  {
    var n := |operations| - 1;
    if operations[n] == operation {
      SumZero(operations[..n], f);
    } else {
      SumOnly(operations[..n], operation, f);
    }
  }

  /** A price steep enough that rounding does not close a gap between quantities. */
  function Steep(gap: real): real
    requires gap > 0.0
  {
    2.0 / gap
  }

  lemma SteepCost(r: Rule, w: real, x: real, y: real)
    requires w > x + y && r.pricePerUnit == Steep(w - x - y)
    ensures r.pricePerUnit >= 0.0
    ensures Cost(r, w) == Cost(r, x) + Cost(r, y) + 2.0
  {
    var gap := w - x - y;
    assert r.pricePerUnit * gap == 2.0;
    CostAdds(r, x, y);
    CostAdds(r, x + y, gap);
    assert x + y + gap == w;
  }

  lemma SteepPrice(q: Query, operation: string, price: real, quantity: real)
    requires price >= 0.0 && quantity >= 0.0
    ensures var p := PriceOf([OnlyRule(q, operation, price)], q, operation, quantity).customer;
            var cost := Cost(OnlyRule(q, operation, price), quantity);
            cost <= p as real && (p as real < cost + 1.0)
  {
    hide Chosen;
    OnlyRuleChosen(q, operation, price, operation);
    var r := OnlyRule(q, operation, price);
    if quantity > 0.0 {
      CostMonotone(r, 0.0, quantity);
      WithoutMarkup(Round(Cost(r, quantity)));
      RoundMeaning(Cost(r, quantity), Round(Cost(r, quantity)));
    }
  }

  lemma OnlyRuleSane(q: Query, operation: string, price: real)
    ensures OnlyRule(q, operation, price).pricePerUnit == price
    ensures price >= 0.0 ==> SaneRule(OnlyRule(q, operation, price))
  {
  }

  lemma WithoutMarkup(n: int)
    ensures Round(Marked(n as real, 0.0)) == n
  {
    MarkedAdds(0.0, 0.0, 0.0);
    assert Marked(n as real, 0.0) == n as real;
    RoundMeaning(n as real, n);
  }

  /** Where the parts do not cover the whole, a book that prices the operation steeply makes splitting save. */
  lemma UncoveredSaves(q: Query, a: seq<Usage>, b: seq<Usage>, operation: string) returns (book: seq<Rule>)
    requires |a| == |b|
    requires FirstPositive(Together(a, b), operation) > FirstPositive(a, operation) + FirstPositive(b, operation)
    ensures Sane(book) && !NeverSaves(book, q, a, b)
  {
    var whole := Together(a, b);
    var w, x, y := FirstPositive(whole, operation), FirstPositive(a, operation), FirstPositive(b, operation);
    var price := Steep(w - x - y);
    var r := OnlyRule(q, operation, price);
    book := [r];
    SteepCost(r, w, x, y);
    OnlyRuleSane(q, operation, price);
    hide Amount, PriceOf, Steep, FirstPositive, Cost, Together, OnlyRule;
    OnlyRuleAmount(q, operation, price, a);
    OnlyRuleAmount(q, operation, price, b);
    OnlyRuleAmount(q, operation, price, whole);
    SteepPrice(q, operation, price, w);
    SteepPrice(q, operation, price, x);
    SteepPrice(q, operation, price, y);
  }

  /** Exactly when two parts are safe to bill apart: under no sane book does that save, if and only if for every
      operation the first positive quantity of the whole is at most those of the parts together. */
  lemma SplitNeverSavesIff(q: Query, a: seq<Usage>, b: seq<Usage>)
    requires SameOperations(a, b)
    ensures (forall book :: Sane(book) ==> NeverSaves(book, q, a, b)) <==> PartsCover(a, b)
  {
    hide Sane, NeverSaves, FirstPositive;
    if PartsCover(a, b) {
      forall book | Sane(book)
        ensures NeverSaves(book, q, a, b)
      {
        CoveredNeverSaves(book, q, a, b);
      }
    } else {
      var operation :| FirstPositive(Together(a, b), operation) > FirstPositive(a, operation) + FirstPositive(b, operation);
      var book := UncoveredSaves(q, a, b, operation);
    }
  }

  /** Such a request: a negative second reading takes a metered quantity back, so that the whole is charged for
      the resource instead.  Splitting then saves if and only if the resource costs more. */
  lemma NegativeMeterSavesIff(book: seq<Rule>, q: Query, operation: string, x: real, y: real)
    requires Chosen(book, q, operation).Some? && x > 0.0 && y > 0.0
    ensures var a, b := [Usage(operation, x), Usage(operation, y)], [Usage(operation, -x), Usage(operation, 0.0)];
            (Amount(book, q, Together(a, b)) > Amount(book, q, a) + Amount(book, q, b)
             <==> PriceOf(book, q, operation, y).customer > PriceOf(book, q, operation, x).customer)
  {
    hide Chosen, PriceOf, FirstBillable;
    var a, b := [Usage(operation, x), Usage(operation, y)], [Usage(operation, -x), Usage(operation, 0.0)];
    var whole := Together(a, b);
    AmountByOperation(book, q, a, [operation]);
    AmountByOperation(book, q, b, [operation]);
    AmountByOperation(book, q, whole, [operation]);
    OneSum(operation, Charge(book, q, a));
    OneSum(operation, Charge(book, q, b));
    OneSum(operation, Charge(book, q, whole));
    assert IsFirst(book, q, a, operation, 0);
    FirstIsUnique(book, q, a, operation, 0);
    assert IsFirst(book, q, whole, operation, 1);
    FirstIsUnique(book, q, whole, operation, 1);
    FirstHasPlace(book, q, b, operation);
  }

  lemma OneSum(operation: string, f: string -> int)
    ensures Sum([operation], f) == f(operation)
  {
    assert [operation][..0] == [];
  }

  function Slack(components: seq<Component>): real
    requires forall i :: 0 <= i < |components| ==> components[i].price.rule.Some?
  {
    if components == [] then 0.0
    else var n := |components| - 1; Slack(components[..n]) + 2.0 + components[n].price.rule.value.markup
  }

  function ExactTotal(components: seq<Component>): real
    requires forall i :: 0 <= i < |components| ==> components[i].price.rule.Some?
  {
    if components == [] then 0.0
    else var n := |components| - 1; ExactTotal(components[..n]) + Exact(components[n].price.rule.value, components[n].quantity)
  }

  /** The amount is never below the exact price, and above it by less than two quanta and one markup for each
      component. */
  lemma {:induction false} AmountNearExact(book: seq<Rule>, q: Query, usages: seq<Usage>)
    requires Sane(book)
    ensures var cs := Components(book, q, usages);
            && (forall i :: 0 <= i < |cs| ==> cs[i].price.rule.Some?)
            && ExactTotal(cs) <= Amount(book, q, usages) as real <= ExactTotal(cs) + Slack(cs)
            && (cs != [] ==> Amount(book, q, usages) as real < ExactTotal(cs) + Slack(cs))
  {
    hide Chosen, PriceOf, Listed, Exact, Slack, ExactTotal, Sum, SaneRule;
    NothingTotalled();
    if usages != [] {
      var n := |usages| - 1;
      AmountNearExact(book, q, usages[..n]);
      var u := usages[n];
      var before := Components(book, q, usages[..n]);
      if Billable(book, q, u) && !Listed(before, u.operation) {
        var c := Component(u.operation, u.quantity, PriceOf(book, q, u.operation, u.quantity));
        ComponentNearExact(book, q, u);
        SumSnoc(before, c, Customer);
        TotalsNext(before, c);
      }
    }
  }

  lemma NothingTotalled()
    ensures Slack([]) == 0.0 && ExactTotal([]) == 0.0 && Sum([], Customer) == 0
  {
  }

  lemma TotalsNext(before: seq<Component>, c: Component)
    requires c.price.rule.Some? && forall i :: 0 <= i < |before| ==> before[i].price.rule.Some?
    ensures Slack(before + [c]) == Slack(before) + 2.0 + c.price.rule.value.markup
    ensures ExactTotal(before + [c]) == ExactTotal(before) + Exact(c.price.rule.value, c.quantity)
  {
    hide Exact;
    assert (before + [c])[..|before|] == before;
  }

  lemma ComponentNearExact(book: seq<Rule>, q: Query, u: Usage)
    requires Sane(book) && Billable(book, q, u)
    ensures var p := PriceOf(book, q, u.operation, u.quantity);
            p.rule.Some? && Exact(p.rule.value, u.quantity) <= p.customer as real < Exact(p.rule.value, u.quantity) + 2.0 + p.rule.value.markup
  {
    hide Chosen, Exact;
    ChosenIsSane(book, q, u.operation);
    PriceNearExact(Chosen(book, q, u.operation).value, u.quantity);
  }
}
