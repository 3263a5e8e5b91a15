/** How much, whether the book can take it, and the share stop (desk/sizing.py, rules/arith.py). */
module Sizing {
  import opened Basics
  import opened Money

  datatype Rules = Rules(
    singlePositionPct: real, optionSinglePct: real, optionOpenPremiumPct: real,
    optionMinDte: int, optionCloseAtDte: int,
    stopAtrMultiple: real, stopMinPct: real, stopMaxPct: real, stopLimitPct: real,
    correlationCapPct: real, correlationThreshold: real,
    maxFundedPositions: int, minConviction: int,
    sharesPct: map<int, real>, optionPct: map<int, real>,
    maxEntryChasePct: real, maxDailyAtrPct: real, maxNewCallsPerDay: int,
    horizonMin: int, horizonMax: int, levelMaxDistancePct: real, vetoMinutes: nat)

  ghost predicate SaneRules(r: Rules) {
    && 0.0 < r.stopLimitPct <= 100.0
    && 0.0 <= r.maxEntryChasePct
  }

  datatype Holding = Holding(
    symbol: string, marketValue: real, benchmark: string, isOption: bool, premium: real, pending: bool)

  /** `cash` is net of every pending proposal's worst case, and each of those is a holding. */
  datatype BookState = BookState(equity: real, cash: real, holdings: seq<Holding>)

  /** The sum of an amount over the holdings. */
  function Total(hs: seq<Holding>, amount: Holding -> real): real {
    if hs == [] then 0.0 else Total(hs[..|hs| - 1], amount) + amount(hs[|hs| - 1])
  }

  lemma TotalOfConcat(a: seq<Holding>, b: seq<Holding>, amount: Holding -> real)
    ensures Total(a + b, amount) == Total(a, amount) + Total(b, amount)
    decreases |b|
  {
    if b == [] {
      assert a + b == a;
    } else {
      var init := b[..|b| - 1];
      assert (a + b)[..|a + b| - 1] == a + init;
      TotalOfConcat(a, init, amount);
    }
  }

  function MarketValue(): Holding -> real { (h: Holding) => h.marketValue }

  function ValueIn(symbol: string): Holding -> real { (h: Holding) => if h.symbol == symbol then h.marketValue else 0.0 }

  function PremiumPaid(): Holding -> real { (h: Holding) => if h.isOption then h.premium else 0.0 }

  predicate Clusters(h: Holding, symbol: string, benchmark: string, correlated: set<string>) {
    h.symbol == symbol || h.symbol in correlated || (benchmark != "SPY" && h.benchmark == benchmark)
  }

  function ValueInCluster(symbol: string, benchmark: string, correlated: set<string>): Holding -> real {
    (h: Holding) => if Clusters(h, symbol, benchmark, correlated) then h.marketValue else 0.0
  }

  /** What one holding adds to each cap: its value to its own name's, its premium to the open premium if it is an option,
      and its value to a cluster that it is in by name, by correlation, or by a shared benchmark other than SPY. */
  lemma WhatAHoldingCounts(hs: seq<Holding>, h: Holding, symbol: string, benchmark: string, correlated: set<string>)
    ensures Total([], ValueIn(symbol)) == 0.0 == Total([], PremiumPaid())
    ensures Total(hs + [h], ValueIn(symbol)) == Total(hs, ValueIn(symbol)) + if h.symbol == symbol then h.marketValue else 0.0
    ensures Total(hs + [h], PremiumPaid()) == Total(hs, PremiumPaid()) + if h.isOption then h.premium else 0.0
    ensures Total(hs + [h], MarketValue()) == Total(hs, MarketValue()) + h.marketValue
    ensures var inCluster := h.symbol == symbol || h.symbol in correlated || (h.benchmark == benchmark && benchmark != "SPY");
            Total(hs + [h], ValueInCluster(symbol, benchmark, correlated)) ==
            Total(hs, ValueInCluster(symbol, benchmark, correlated)) + if inCluster then h.marketValue else 0.0
  {
    assert (hs + [h])[..|hs|] == hs;
  }

  function OpenPremium(book: BookState): real { Total(book.holdings, PremiumPaid()) }

  datatype Order = Order(symbol: string, benchmark: string, notional: real, isOption: bool)

  /** The first cap the order breaks, in the order the caps are tested. */
  function CheckBook(book: BookState, o: Order, correlated: set<string>, rules: Rules, reserve: real): Result<()> {
    if |book.holdings| >= rules.maxFundedPositions then Refused(TooManyPositions)
    else if book.cash - o.notional < reserve then Refused(BreaksReserve)
    else if Total(book.holdings, ValueIn(o.symbol)) + o.notional > CapDollars(rules.singlePositionPct, book.equity) then
      Refused(OverSingleName)
    else if o.isOption && o.notional > CapDollars(rules.optionSinglePct, book.equity) then Refused(OverOptionSize)
    else if o.isOption && OpenPremium(book) + o.notional > CapDollars(rules.optionOpenPremiumPct, book.equity) then
      Refused(OverOpenPremium)
    else if Total(book.holdings, ValueInCluster(o.symbol, o.benchmark, correlated)) + o.notional
            > CapDollars(rules.correlationCapPct, book.equity) then
      Refused(OverCluster)
    else Ok(())
  }

  /** The single-name, option and cluster caps as a statement about a book that already carries the order. */
  ghost predicate WithinCaps(book: BookState, o: Order, correlated: set<string>, rules: Rules, reserve: real) {
    && |book.holdings| <= rules.maxFundedPositions
    && book.cash >= reserve
    && Total(book.holdings, ValueIn(o.symbol)) <= CapDollars(rules.singlePositionPct, book.equity)
    && (o.isOption ==> o.notional <= CapDollars(rules.optionSinglePct, book.equity))
    && (o.isOption ==> OpenPremium(book) <= CapDollars(rules.optionOpenPremiumPct, book.equity))
    && Total(book.holdings, ValueInCluster(o.symbol, o.benchmark, correlated))
         <= CapDollars(rules.correlationCapPct, book.equity)
  }

  /** The book with the order carried at its notional: cash down, one more holding, equity the same. */
  ghost predicate Carries(after: BookState, before: BookState, o: Order) {
    && after.equity == before.equity
    && after.cash == before.cash - o.notional
    && |after.holdings| == |before.holdings| + 1
    && after.holdings[..|before.holdings|] == before.holdings
    && var h := after.holdings[|before.holdings|];
       h.symbol == o.symbol && h.marketValue == o.notional && h.benchmark == o.benchmark
       && h.isOption == o.isOption && h.premium == (if o.isOption then o.notional else 0.0)
  }

  /** The check passes exactly when the book that carries the order is within every cap. */
  lemma CheckIsCapsOnTheNextBook(
      before: BookState, after: BookState, o: Order, correlated: set<string>, rules: Rules, reserve: real)
    requires Carries(after, before, o)
    ensures CheckBook(before, o, correlated, rules, reserve).Ok? <==> WithinCaps(after, o, correlated, rules, reserve)
  {
    assert after.holdings[..|after.holdings| - 1] == before.holdings;
  }

  /** The book with the order's cost paid and one more holding at index `at`, marked at `worth`. */
  ghost predicate Takes(after: BookState, before: BookState, o: Order, worth: real, at: nat) {
    && at <= |before.holdings| && |after.holdings| == |before.holdings| + 1
    && after.cash == before.cash - o.notional
    && after.equity == before.equity - o.notional + worth
    && var h := after.holdings[at];
       && after.holdings == before.holdings[..at] + [h] + before.holdings[at..]
       && h.symbol == o.symbol && h.marketValue == worth && h.benchmark == o.benchmark
       && h.isOption == o.isOption && h.premium == (if o.isOption then o.notional else 0.0)
  }

  /** The caps as a test on the book before, with the new holding at its mark. */
  predicate FitsAt(
      before: BookState, o: Order, worth: real, correlated: set<string>, rules: Rules, reserve: real)
  {
    var equity := before.equity - o.notional + worth;
    && |before.holdings| < rules.maxFundedPositions
    && before.cash - o.notional >= reserve
    && Total(before.holdings, ValueIn(o.symbol)) + worth <= CapDollars(rules.singlePositionPct, equity)
    && (o.isOption ==> o.notional <= CapDollars(rules.optionSinglePct, equity))
    && (o.isOption ==> OpenPremium(before) + o.notional <= CapDollars(rules.optionOpenPremiumPct, equity))
    && Total(before.holdings, ValueInCluster(o.symbol, o.benchmark, correlated)) + worth
         <= CapDollars(rules.correlationCapPct, equity)
  }

  lemma TotalOfInsert(hs: seq<Holding>, h: Holding, at: nat, amount: Holding -> real)
    requires at <= |hs|
    ensures Total(hs[..at] + [h] + hs[at..], amount) == Total(hs, amount) + amount(h)
  {
    assert hs == hs[..at] + hs[at..];
    TotalOfConcat(hs[..at], hs[at..], amount);
    TotalOfConcat(hs[..at], [h], amount);
    TotalOfConcat(hs[..at] + [h], hs[at..], amount);
    assert [h][..0] == [];
  }

  /** The book that took the order is within every cap exactly when the order fits at its mark. */
  lemma TakenFitsAtItsMark(
      before: BookState, after: BookState, o: Order, worth: real, at: nat, correlated: set<string>, rules: Rules, reserve: real)
    requires Takes(after, before, o, worth, at)
    ensures WithinCaps(after, o, correlated, rules, reserve) <==> FitsAt(before, o, worth, correlated, rules, reserve)
  {
    hide Total;
    var h := after.holdings[at];
    TotalOfInsert(before.holdings, h, at, ValueIn(o.symbol));
    TotalOfInsert(before.holdings, h, at, PremiumPaid());
    TotalOfInsert(before.holdings, h, at, ValueInCluster(o.symbol, o.benchmark, correlated));
  }

  /** At its cost, fitting is passing the check. */
  lemma FitsAtItsCost(before: BookState, o: Order, correlated: set<string>, rules: Rules, reserve: real)
    ensures FitsAt(before, o, o.notional, correlated, rules, reserve) <==> CheckBook(before, o, correlated, rules, reserve).Ok?
  {
    hide Total, CapDollars;
    assert before.equity - o.notional + o.notional == before.equity;
  }

  lemma WholeCap(pct: real, value: real, cents: int)
    requires value * pct == cents as real
    ensures CapDollars(pct, value) == cents as real / 100.0
  {
    FloorCentsUnique(value * pct / 100.0, cents as real / 100.0);
  }

  /** A mark above the price paid can take a checked entry over a cap: 10% of 1,000 buys 100, which is marked at 200. */
  lemma AMarkCanBreakACap(rules: Rules)
    requires rules.maxFundedPositions == 5 && rules.singlePositionPct == 10.0 && rules.correlationCapPct == 100.0
    ensures var before, o := BookState(1000.0, 1000.0, []), Order("A", "SPY", 100.0, false);
            CheckBook(before, o, {}, rules, 0.0).Ok? && !FitsAt(before, o, 200.0, {}, rules, 0.0)
  {
    hide CapDollars;
    WholeCap(10.0, 1000.0, 10000);
    WholeCap(100.0, 1000.0, 100000);
    WholeCap(10.0, 1100.0, 11000);
  }

  /** A book no tighter for an order: the same equity, no less cash, and no more counted against any cap. */
  ghost predicate Eases(after: BookState, before: BookState, o: Order, correlated: set<string>) {
    && after.equity == before.equity && after.cash >= before.cash && |after.holdings| <= |before.holdings|
    && Total(after.holdings, ValueIn(o.symbol)) <= Total(before.holdings, ValueIn(o.symbol))
    && OpenPremium(after) <= OpenPremium(before)
    && Total(after.holdings, ValueInCluster(o.symbol, o.benchmark, correlated))
         <= Total(before.holdings, ValueInCluster(o.symbol, o.benchmark, correlated))
  }

  lemma EasedBookPasses(
      before: BookState, after: BookState, o: Order, correlated: set<string>, rules: Rules, reserve: real)
    requires Eases(after, before, o, correlated) && CheckBook(before, o, correlated, rules, reserve).Ok?
    ensures CheckBook(after, o, correlated, rules, reserve).Ok?
  {
    hide Total, CapDollars;
  }

  function ConvictionPct(shares: bool, conviction: int, rules: Rules): Result<real> {
    var table := if shares then rules.sharesPct else rules.optionPct;
    if conviction < rules.minConviction then Refused(LowConviction)
    else if conviction !in table then Refused(NoSizeRule)
    else Ok(table[conviction])
  }

  /** Whole units a budget buys: the quotient truncated toward zero, refused below one. */
  function UnitsWithin(budget: real, per: real): (r: Result<int>)
    ensures r.Ok? ==> 1 <= r.value
  {
    if per == 0.0 then Refused(DivisionByZero)
    else
      var q := budget / per;
      var n := if q >= 0.0 then q.Floor else -((-q).Floor);
      if n < 1 then Refused(BuysNothing) else Ok(n)
  }

  function Cost(units: real, per: real): real { units * per }

  /** At a positive price it answers the largest number of units the budget covers, and refuses when that is none. */
  lemma UnitsAreTheMost(budget: real, per: real)
    requires 0.0 < per
    ensures UnitsWithin(budget, per).Ok? <==> per <= budget
    ensures UnitsWithin(budget, per).Ok? ==>
              var cost := Cost(UnitsWithin(budget, per).value as real, per);
              cost <= budget < cost + per
  {
    var q := budget / per;
    assert Cost(q, per) == budget;
    hide Cost;
    CostBracket(q.Floor as real, q, per);
    if 1.0 <= q {
      CostMonotone(1.0, q, per);
      assert UnitsWithin(budget, per).value == q.Floor;
    } else {
      CostStrict(q, 1.0, per);
    }
  }

  lemma CostMonotone(a: real, b: real, per: real)
    requires a <= b && 0.0 < per
    ensures Cost(a, per) <= Cost(b, per) && Cost(1.0, per) == per
  {
    ScaleUp(a, b, per);
  }

  lemma CostStrict(a: real, b: real, per: real)
    requires a < b && 0.0 < per
    ensures Cost(a, per) < Cost(b, per) && Cost(1.0, per) == per
  {
    ScaleUpStrictly(a, b, per);
  }

  lemma CostBracket(n: real, q: real, per: real)
    requires 0.0 < per && n <= q < n + 1.0
    ensures Cost(n, per) <= Cost(q, per) < Cost(n, per) + per
  {
    assert Cost(n + 1.0, per) == Cost(n, per) + per;
    hide Cost;
    CostMonotone(n, q, per);
    CostStrict(q, n + 1.0, per);
  }

  function ShareQuantity(conviction: int, equity: real, maxEntry: real, rules: Rules): Result<int> {
    var pct :- ConvictionPct(true, conviction, rules);
    UnitsWithin(CapDollars(pct, equity), maxEntry)
  }

  function OptionQuantity(conviction: int, equity: real, ask: real, rules: Rules): Result<int> {
    var pct :- ConvictionPct(false, conviction, rules);
    UnitsWithin(CapDollars(pct, equity), ask * 100.0)
  }

  /** The stop distance in percent: a multiple of the ATR, clamped. */
  function TriggerPct(atrPct: real, rules: Rules): (pct: real)
    ensures pct <= rules.stopMaxPct
    ensures rules.stopMinPct <= rules.stopMaxPct ==> rules.stopMinPct <= pct
    ensures rules.stopMinPct <= rules.stopAtrMultiple * atrPct <= rules.stopMaxPct ==> pct == rules.stopAtrMultiple * atrPct
    ensures rules.stopAtrMultiple * atrPct < rules.stopMinPct <= rules.stopMaxPct ==> pct == rules.stopMinPct
    ensures rules.stopMaxPct < rules.stopAtrMultiple * atrPct ==> pct == rules.stopMaxPct
  {
    Min(Max(rules.stopAtrMultiple * atrPct, rules.stopMinPct), rules.stopMaxPct)
  }

  /** The trigger a percentage below the entry, to the nearest cent. */
  function TriggerAt(entry: real, pct: real): real {
    Cents(entry * (100.0 - pct) / 100.0)
  }

  /** The limit price that belongs to a trigger. */
  function LimitBelow(trigger: real, rules: Rules): real {
    FloorCents(trigger * (100.0 - rules.stopLimitPct) / 100.0)
  }

  datatype Stop = Stop(trigger: real, limit: real)

  function EntryStop(fill: real, atrPct: real, invalidation: real, rules: Rules): Result<Stop> {
    var trigger := Max(TriggerAt(fill, TriggerPct(atrPct, rules)), CeilCents(invalidation));
    if trigger >= fill then Refused(StopAboveFill) else Ok(Stop(trigger, LimitBelow(trigger, rules)))
  }

  lemma TriggerNotTooFar(fill: real, pct: real, widest: real)
    requires 0.0 < fill && pct <= widest
    ensures fill - TriggerAt(fill, pct) <= fill * widest / 100.0 + 0.005
  {
    hide Cents;
    ScaleUp(pct, widest, fill);
    var level := fill * (100.0 - pct) / 100.0;
    assert level == fill - pct * fill / 100.0;
    assert level >= fill - widest * fill / 100.0;
    assert TriggerAt(fill, pct) == Cents(level) >= level - 0.005;
  }

  lemma LimitSitsBelow(trigger: real, rules: Rules)
    requires SaneRules(rules) && 0.0 < trigger
    ensures LimitBelow(trigger, rules) < trigger
  {
    assert trigger * (100.0 - rules.stopLimitPct) == trigger * 100.0 - trigger * rules.stopLimitPct;
    assert trigger * rules.stopLimitPct > 0.0;
  }

  /** The two roundings of a stop in numbers: the trigger is within half a cent of its percentage under the fill, and the
      limit is the last whole cent at or under its percentage under the trigger. */
  lemma StopInNumbers(fill: real, pct: real, trigger: real, rules: Rules)
    ensures -0.005 <= TriggerAt(fill, pct) - fill * (100.0 - pct) / 100.0 <= 0.005
    ensures var exact := trigger * (100.0 - rules.stopLimitPct) / 100.0;
            LimitBelow(trigger, rules) <= exact < LimitBelow(trigger, rules) + 0.01 && IsCents(LimitBelow(trigger, rules))
  {
    hide Cents, FloorCents;
  }

  /** The trigger of an accepted stop is the higher of the ATR price and the invalidation rounded up. */
  lemma StopIsTheHigher(fill: real, atrPct: real, invalidation: real, rules: Rules)
    ensures var byAtr, byThesis := TriggerAt(fill, TriggerPct(atrPct, rules)), CeilCents(invalidation);
            && (EntryStop(fill, atrPct, invalidation, rules).Ok? <==> byAtr < fill && byThesis < fill)
            && (EntryStop(fill, atrPct, invalidation, rules).Ok? ==>
                  var t := EntryStop(fill, atrPct, invalidation, rules).value.trigger;
                  t >= byAtr && t >= byThesis && (t == byAtr || t == byThesis))
  {
    hide TriggerAt, TriggerPct, CeilCents, LimitBelow;
  }

  /** An accepted stop: limit below trigger below fill, at or above the invalidation, and no further from the
      fill than the widest allowed percentage plus half a cent of rounding. */
  lemma StopGeometry(fill: real, atrPct: real, invalidation: real, rules: Rules)
    requires SaneRules(rules) && 0.0 < invalidation && 0.0 < fill
    requires EntryStop(fill, atrPct, invalidation, rules).Ok?
    ensures var s := EntryStop(fill, atrPct, invalidation, rules).value;
            && s.limit < s.trigger < fill
            && invalidation <= s.trigger
            && fill - s.trigger <= fill * rules.stopMaxPct / 100.0 + 0.005
            && s.limit == LimitBelow(s.trigger, rules)
  {
    TriggerNotTooFar(fill, TriggerPct(atrPct, rules), rules.stopMaxPct);
    LimitSitsBelow(EntryStop(fill, atrPct, invalidation, rules).value.trigger, rules);
  }
}
