/** Which calls the PM's tools accept, and what holds of the call table in every run (desk/pm.py, desk/calls.py). */
module DeskCalls {
  import opened Basics
  import opened Money
  import opened Clock
  import opened Calls
  import opened Sizing
  import opened Ledger
  import opened Desk

  // ----- what makes a call acceptable -----

  /** The read answered with a quote at most five minutes old for every symbol. */
  predicate AllFresh(feed: Feed, symbols: set<string>, now: Time) {
    feed.Answered? && forall s :: s in symbols ==> s in feed.quotes && now - feed.quotes[s].time <= 300 * SECOND
  }

  lemma {:induction false} FreshExactlyWhen(feed: Feed, wanted: seq<string>, now: Time)
    ensures FreshQuotes(feed, wanted, now).Ok? <==> AllFresh(feed, (set s | s in wanted), now)
  {
    if feed.Answered? && wanted != [] {
      FreshExactlyWhen(feed, wanted[1..], now);
      assert forall s :: s in wanted <==> s == wanted[0] || s in wanted[1..];
    }
  }

  /** No level is further from the price than the allowed percentage of it. */
  predicate Near(level: real, last: real, rules: Rules) { Gap(level, last) <= Share(rules.levelMaxDistancePct, last) }

  function Gap(level: real, last: real): real { if level < last then last - level else level - last }

  /** A percentage of an amount. */
  function Share(pct: real, amount: real): real { pct * amount / 100.0 }

  lemma NearInPercent(level: real, last: real, rules: Rules)
    requires 0.0 < last
    ensures Near(level, last, rules) <==> Abs(level - last) / last * 100.0 <= rules.levelMaxDistancePct
  {
    var gap, d := Abs(level - last), rules.levelMaxDistancePct;
    var q := gap / last;
    assert q * last == gap;
    assert Gap(level, last) == gap;
    if q * 100.0 <= d {
      ScaleUp(q * 100.0, d, last);
      assert (q * 100.0) * last == gap * 100.0;
    } else {
      ScaleUpStrictly(d, q * 100.0, last);
      assert (q * 100.0) * last == gap * 100.0;
    }
  }

  /** The price strictly between the levels, the target on the call's side, neither too far. */
  predicate LevelsFit(d: Direction, last: real, target: real, invalidation: real, rules: Rules) {
    && (if d.Up? then invalidation < last < target else target < last < invalidation)
    && Near(target, last, rules) && Near(invalidation, last, rules)
  }

  lemma LevelsFitExactly(d: Direction, last: real, target: real, invalidation: real, rules: Rules)
    requires 0.0 < target && 0.0 < invalidation
    ensures CheckLevels(d, last, target, invalidation, rules).Ok? <==> LevelsFit(d, last, target, invalidation, rules)
  {
    if 0.0 < last {
      NearInPercent(target, last, rules);
      NearInPercent(invalidation, last, rules);
      hide Near;
    }
  }

  /** The same name and direction, in the same book: the desk's own, or the account's old positions. */
  predicate SameBet(a: Call, symbol: string, d: Direction, legacy: bool) {
    a.symbol == symbol && a.direction == d && (a.origin.Legacy? <==> legacy)
  }

  /** Every earlier call on this bet, extensions included, has resolved. */
  ghost predicate NameFree(db: Db, symbol: string, d: Direction, legacy: bool) {
    forall i :: 0 <= i < |db.calls| && SameBet(db.calls[i], symbol, d, legacy) ==> i in db.resolutions
  }

  lemma NameFreeExactly(db: Db, symbol: string, d: Direction, legacy: bool)
    ensures NameFree(db, symbol, d, legacy) <==> !OpenCallFor(db.calls, db.resolutions, symbol, d, legacy)
  {
  }

  /** The desk's own new calls of a session; extensions and legacy calls do not count. */
  function NewCallsOn(calls: seq<Call>, session: int): set<nat> {
    set i: nat | i < |calls| && calls[i].session == session && !calls[i].origin.Legacy? && calls[i].parent.None?
  }

  lemma NewCallsAfter(calls: seq<Call>, c: Call, session: int)
    ensures NewCallsOn(calls + [c], session) ==
            NewCallsOn(calls, session) +
            if c.session == session && !c.origin.Legacy? && c.parent.None? then {|calls|} else {}
    ensures |calls| !in NewCallsOn(calls, session)
  {
  }

  lemma {:induction false} NewCallsAreCounted(calls: seq<Call>, session: int)
    ensures CallsMadeOn(calls, session) == |NewCallsOn(calls, session)|
  {
    if calls == [] {
      assert NewCallsOn(calls, session) == {};
    } else {
      var init, c := calls[..|calls| - 1], calls[|calls| - 1];
      assert calls == init + [c];
      NewCallsAreCounted(init, session);
      NewCallsAfter(init, c, session);
    }
  }

  /** What every call needs, with the price of its name. */
  ghost predicate Sound(db: Db, cfg: Config, cin: CallIn, pin: PmInput, now: Time) {
    && cin.benchmark in cfg.benchmarks
    && cfg.rules.horizonMin <= cin.horizon <= cfg.rules.horizonMax
    && 0.0 < cin.target && 0.0 < cin.invalidation
    && NameFree(db, cin.symbol, cin.direction, cin.legacy)
    && AllFresh(pin.feed, {cin.symbol, "SPY", cin.benchmark}, now)
    && LevelsFit(cin.direction, pin.feed.quotes[cin.symbol].last, cin.target, cin.invalidation, cfg.rules)
  }

  /** What only the desk's own calls need. */
  ghost predicate OwnBook(db: Db, cfg: Config, cin: CallIn, pin: PmInput, now: Time) {
    && cin.symbol in pin.tradeable
    && |NewCallsOn(db.calls, Day(now))| < cfg.rules.maxNewCallsPerDay
    && (pin.pitch.Some? ==> pin.pitch.value.open && pin.pitch.value.symbol == cin.symbol && pin.pitch.value.direction == cin.direction)
  }

  /** A call is accepted exactly when it is sound and, if it is the desk's own, has room and, if it asks for money, is
      funded; a call on an old position asks for no money and needs that position. */
  lemma AcceptsExactlyWhen(db: Db, cfg: Config, cin: CallIn, pin: PmInput, now: Time)
    ensures Submit(db, cfg, cin, pin, now).Ok? <==>
              && Sound(db, cfg, cin, pin, now)
              && if cin.legacy then cin.funding.Unfunded? && cin.symbol in pin.accountHolds
                 else
                   && OwnBook(db, cfg, cin, pin, now)
                   && (cin.funding.Unfunded? || Fund(db, cfg, cin, pin, pin.feed.quotes[cin.symbol].last, now).Ok?)
  {
    var wanted := [cin.symbol, "SPY", cin.benchmark];
    FreshExactlyWhen(pin.feed, wanted, now);
    assert (set s | s in wanted) == {cin.symbol, "SPY", cin.benchmark};
    NameFreeExactly(db, cin.symbol, cin.direction, cin.legacy);
    NewCallsAreCounted(db.calls, Day(now));
    hide FreshQuotes, OpenCallFor, NameFree, CallsMadeOn, NewCallsOn, CheckLevels, LevelsFit, Fund, AllFresh;
    if AllFresh(pin.feed, {cin.symbol, "SPY", cin.benchmark}, now) {
      FreshAnswers(pin.feed, wanted, now);
      if 0.0 < cin.target && 0.0 < cin.invalidation {
        LevelsFitExactly(cin.direction, pin.feed.quotes[cin.symbol].last, cin.target, cin.invalidation, cfg.rules);
      }
    }
  }

  lemma FreshAnswers(feed: Feed, wanted: seq<string>, now: Time)
    requires AllFresh(feed, (set s | s in wanted), now)
    ensures FreshQuotes(feed, wanted, now) == Ok(feed.quotes) && forall s :: s in wanted ==> s in feed.quotes
  {
    FreshExactlyWhen(feed, wanted, now);
  }

  /** The names counted as correlated: those in the book, other than the symbol, measured over the threshold. */
  lemma CorrelatedExactly(book: BookState, symbol: string, measured: map<string, real>, rules: Rules, name: string)
    ensures name in CorrelatedWith(book, symbol, measured, rules) <==>
              && name != symbol && name in measured && measured[name] > rules.correlationThreshold
              && exists k :: 0 <= k < |book.holdings| && book.holdings[k].symbol == name
  {
    if k :| 0 <= k < |book.holdings| && book.holdings[k].symbol == name {
      assert book.holdings[k] in book.holdings;
    }
  }

  /** What an accepted call says: what was asked, stamped with the prices of its moment. */
  lemma AcceptedCallSaysWhatWasAsked(db: Db, cfg: Config, cin: CallIn, pin: PmInput, now: Time)
    requires Submit(db, cfg, cin, pin, now).Ok?
    ensures var p := Submit(db, cfg, cin, pin, now).value;
            var c := p.call;
            && p.at == now == c.madeAt && c.session == Day(now) && c.parent.None? && (c.origin.Legacy? <==> cin.legacy)
            && (c.origin.FromPitch? <==> !cin.legacy && pin.pitch.Some?)
            && c.symbol == cin.symbol && c.direction == cin.direction && c.target == cin.target
            && c.invalidation == cin.invalidation && c.horizon == cin.horizon && c.conviction == cin.conviction
            && c.benchmark == cin.benchmark && c.funding == cin.funding
            && AllFresh(pin.feed, {cin.symbol, "SPY", cin.benchmark}, now)
            && c.refPrice == pin.feed.quotes[cin.symbol].last && c.spyRef == pin.feed.quotes["SPY"].last
            && c.benchRef == pin.feed.quotes[cin.benchmark].last
            && (p.plan.Some? <==> !cin.funding.Unfunded?)
            && (p.plan.Some? ==> Fund(db, cfg, cin, pin, c.refPrice, now) == Ok(p.plan.value))
  {
    AcceptsExactlyWhen(db, cfg, cin, pin, now);
    hide FreshQuotes, OpenCallFor, NameFree, CallsMadeOn, NewCallsOn, CheckLevels, LevelsFit, Fund;
    var wanted := [cin.symbol, "SPY", cin.benchmark];
    assert (set s | s in wanted) == {cin.symbol, "SPY", cin.benchmark};
    FreshAnswers(pin.feed, wanted, now);
  }

  // ----- the money a call is given -----

  /** The percentage of the book that a conviction is worth in shares or in options. */
  function SizeTable(shares: bool, rules: Rules): map<int, real> { if shares then rules.sharesPct else rules.optionPct }

  /** What one unit costs at a limit: a share, or a contract on a hundred. */
  function UnitCost(i: Instrument, limit: real): real { if i.Shares? then limit else limit * 100.0 }

  /** The most units the budget pays for at the limit. */
  ghost predicate MostUnits(quantity: int, per: real, budget: real) {
    1 <= quantity && Cost(quantity as real, per) <= budget < Cost(quantity as real, per) + per
  }

  lemma MostUnitsUnique(a: int, b: int, per: real, budget: real)
    requires 0.0 < per && MostUnits(a, per, budget) && MostUnits(b, per, budget)
    ensures a == b
  {
    if a < b { UnitsApart(a, b, per); }
    if b < a { UnitsApart(b, a, per); }
  }

  lemma UnitsApart(a: int, b: int, per: real)
    requires a < b && 0.0 < per
    ensures Cost(a as real, per) + per <= Cost(b as real, per)
  {
    ScaleUp((a + 1) as real, b as real, per);
  }

  lemma SizedExactly(budget: real, per: real, quantity: int)
    requires 0.0 < per
    ensures UnitsWithin(budget, per) == Ok(quantity) <==> MostUnits(quantity, per, budget)
  {
    UnitsAreTheMost(budget, per);
    hide Cost, UnitsWithin;
    if MostUnits(quantity, per, budget) {
      OneUnitFits(quantity, per, budget);
      MostUnitsUnique(quantity, UnitsWithin(budget, per).value, per, budget);
    }
  }

  lemma OneUnitFits(quantity: int, per: real, budget: real)
    requires 0.0 < per && MostUnits(quantity, per, budget)
    ensures per <= budget
  {
    ScaleUp(1.0, quantity as real, per);
  }

  /** The limit a call may be filled at: the one it names, or for an option the chased ask. */
  ghost predicate LimitFits(cfg: Config, cin: CallIn, pin: PmInput, last: real, plan: Plan, now: Time) {
    if cin.funding.FundShares? then
      && plan.instrument.Shares? && cin.direction.Up? && plan.symbol == cin.symbol
      && cin.maxEntry == Some(plan.maxEntry) && plan.maxEntry <= last + Share(cfg.rules.maxEntryChasePct, last)
      && pin.atr == plan.atrPct && plan.atrPct.Some? && plan.atrPct.value <= cfg.rules.maxDailyAtrPct
      && cin.invalidation < plan.maxEntry
    else
      && plan.atrPct.None?
      && (if cin.direction.Up? then cin.funding.FundCall? && plan.instrument.CallOption?
          else cin.funding.FundPut? && plan.instrument.PutOption?)
      && cin.optionSymbol.Some? && cin.optionSymbol.value != "" && pin.chain == Match(plan.symbol)
      && AllFresh(pin.optionFeed, {plan.symbol}, now)
      && var ask := pin.optionFeed.quotes[plan.symbol].ask;
         var ceiling := Cents(ask + Share(cfg.rules.maxEntryChasePct, ask));
         plan.maxEntry <= ceiling && plan.maxEntry == if cin.maxEntry.Some? then cin.maxEntry.value else ceiling
  }

  /** Everything a funded plan is: a conviction with a size, a limit that fits, the most units that size pays for at the
      limit, and a book that takes their worst case. */
  ghost predicate Fundable(db: Db, cfg: Config, cin: CallIn, pin: PmInput, last: real, now: Time, plan: Plan) {
    && db.start.Some? && 0.0 < plan.maxEntry
    && var table := SizeTable(cin.funding.FundShares?, cfg.rules);
       && cfg.rules.minConviction <= cin.conviction && cin.conviction in table
       && LimitFits(cfg, cin, pin, last, plan, now)
       && var book := Book(db, None).value;
          && MostUnits(plan.quantity, UnitCost(plan.instrument, plan.maxEntry), CapDollars(table[cin.conviction], book.equity))
          && CheckBook(book, Order(cin.symbol, cin.benchmark, Cost(plan.quantity as real, UnitCost(plan.instrument, plan.maxEntry)),
                                   !plan.instrument.Shares?),
                       CorrelatedWith(book, cin.symbol, pin.measured, cfg.rules), cfg.rules, cfg.reserve).Ok?
  }

  lemma ChaseInShares(price: real, rules: Rules)
    ensures Chased(price, rules) == price + Share(rules.maxEntryChasePct, price)
  {
  }

  lemma CostIsNotional(i: Instrument, quantity: int, limit: real)
    ensures Notional(limit, quantity, i) == Cost(quantity as real, UnitCost(i, limit))
  {
    NotionalInNumbers(limit, quantity);
  }

  lemma SharesPlannedExactly(cfg: Config, book: BookState, cin: CallIn, pin: PmInput, last: real, now: Time, plan: Plan)
    requires cin.funding.FundShares? && ConvictionPct(true, cin.conviction, cfg.rules).Ok?
    ensures PlanShares(cfg, book, cin, pin, last) == Ok(plan) <==>
              && 0.0 < plan.maxEntry && LimitFits(cfg, cin, pin, last, plan, now)
              && MostUnits(plan.quantity, plan.maxEntry, CapDollars(cfg.rules.sharesPct[cin.conviction], book.equity))
  {
    ChaseInShares(last, cfg.rules);
    var budget := CapDollars(cfg.rules.sharesPct[cin.conviction], book.equity);
    hide CapDollars, UnitsWithin, MostUnits, Share, Chased;
    if cin.maxEntry.Some? && 0.0 < cin.maxEntry.value {
      var units := UnitsWithin(budget, cin.maxEntry.value);
      SizedExactly(budget, cin.maxEntry.value, plan.quantity);
      if units.Ok? { SizedExactly(budget, cin.maxEntry.value, units.value); }
    }
  }

  lemma FreshOne(feed: Feed, symbol: string, now: Time)
    ensures FreshQuotes(feed, [symbol], now).Ok? <==> AllFresh(feed, {symbol}, now)
    ensures AllFresh(feed, {symbol}, now) ==>
              feed.Answered? && symbol in feed.quotes && FreshQuotes(feed, [symbol], now) == Ok(feed.quotes)
  {
    FreshExactlyWhen(feed, [symbol], now);
    assert (set s | s in [symbol]) == {symbol};
    assert symbol in {symbol};
  }

  lemma CeilingIs(ask: real, rules: Rules)
    requires SaneRules(rules) && 0.0 <= ask
    ensures var ceiling := Cents(ask + Share(rules.maxEntryChasePct, ask));
            Cents(Chased(ask, rules)) == ceiling && 0.0 <= ceiling
  {
    ChaseInShares(ask, rules);
    ScaleUp(0.0, ask, 1.0 + rules.maxEntryChasePct / 100.0);
  }

  lemma OptionPlannedExactly(cfg: Config, book: BookState, cin: CallIn, pin: PmInput, last: real, now: Time, plan: Plan)
    requires SaneRules(cfg.rules) && SaneFeed(pin.optionFeed)
    requires !cin.funding.FundShares? && ConvictionPct(false, cin.conviction, cfg.rules).Ok?
    ensures PlanOption(cfg, book, cin, pin, now) == Ok(plan) <==>
              && 0.0 < plan.maxEntry && LimitFits(cfg, cin, pin, last, plan, now)
              && MostUnits(plan.quantity, plan.maxEntry * 100.0, CapDollars(cfg.rules.optionPct[cin.conviction], book.equity))
  {
    hide CapDollars, UnitsWithin, MostUnits, Share, Chased, Cents, FreshQuotes, AllFresh, SaneRules;
    if pin.chain.Match? {
      var osi := pin.chain.osi;
      FreshOne(pin.optionFeed, osi, now);
      if AllFresh(pin.optionFeed, {osi}, now) {
        var ask := pin.optionFeed.quotes[osi].ask;
        assert 0.0 <= ask;
        CeilingIs(ask, cfg.rules);
        var ceiling := Cents(Chased(ask, cfg.rules));
        var limit := if cin.maxEntry.Some? then cin.maxEntry.value else ceiling;
        var budget := CapDollars(cfg.rules.optionPct[cin.conviction], book.equity);
        if 0.0 < limit {
          SizedExactly(budget, limit * 100.0, plan.quantity);
        } else {
          NothingIsFreeToBuy(budget);
        }
      }
    }
  }

  lemma NothingIsFreeToBuy(budget: real)
    ensures UnitsWithin(budget, 0.0 * 100.0).Refused?
  {
  }

  lemma BookOkExactly(db: Db)
    ensures Book(db, None).Ok? <==> db.start.Some?
  {
  }

  /** A call gets its money exactly when there is such a plan, and then gets that plan. */
  lemma FundsExactlyWhen(db: Db, cfg: Config, cin: CallIn, pin: PmInput, last: real, now: Time, plan: Plan)
    requires SaneRules(cfg.rules) && SaneFeed(pin.optionFeed) && !cin.funding.Unfunded?
    ensures Fund(db, cfg, cin, pin, last, now) == Ok(plan) <==> Fundable(db, cfg, cin, pin, last, now, plan)
  {
    hide Book, PlanShares, PlanOption, CheckBook, CorrelatedWith, MostUnits, CapDollars, Cost, Notional, SaneRules, SaneFeed,
      LimitFits;
    BookOkExactly(db);
    if db.start.Some? && ConvictionPct(cin.funding.FundShares?, cin.conviction, cfg.rules).Ok? {
      var book := Book(db, None).value;
      CostIsNotional(plan.instrument, plan.quantity, plan.maxEntry);
      LimitNamesTheInstrument(cfg, cin, pin, last, plan, now);
      if cin.funding.FundShares? {
        SharesPlannedExactly(cfg, book, cin, pin, last, now, plan);
      } else {
        OptionPlannedExactly(cfg, book, cin, pin, last, now, plan);
      }
    }
  }

  lemma LimitNamesTheInstrument(cfg: Config, cin: CallIn, pin: PmInput, last: real, plan: Plan, now: Time)
    ensures LimitFits(cfg, cin, pin, last, plan, now) ==> (plan.instrument.Shares? <==> cin.funding.FundShares?)
  {
  }

  /** In money: what a funded call may cost is within its conviction's share of the book, and one unit more is not. */
  lemma FundedSizeIsTheMost(db: Db, cfg: Config, cin: CallIn, pin: PmInput, last: real, now: Time)
    requires SaneRules(cfg.rules) && SaneFeed(pin.optionFeed) && !cin.funding.Unfunded?
    requires Fund(db, cfg, cin, pin, last, now).Ok?
    ensures var plan, table := Fund(db, cfg, cin, pin, last, now).value, SizeTable(cin.funding.FundShares?, cfg.rules);
            && Book(db, None).Ok? && cin.conviction in table
            && var budget := CapDollars(table[cin.conviction], Book(db, None).value.equity);
               PlanCost(plan) <= budget < PlanCost(plan) + if plan.instrument.Shares? then plan.maxEntry else plan.maxEntry * 100.0
  {
    var plan := Fund(db, cfg, cin, pin, last, now).value;
    hide Fund, CheckBook, LimitFits, CapDollars, Cost, Notional, CorrelatedWith;
    FundsExactlyWhen(db, cfg, cin, pin, last, now, plan);
    CostIsNotional(plan.instrument, plan.quantity, plan.maxEntry);
  }

  // ----- extensions and tightenings -----

  /** Some open position is governed by the call. */
  ghost predicate Held(db: Db, id: nat) {
    var open := OpenPositions(db.proposals, db.fills);
    exists k :: 0 <= k < |open| && CurrentCall(db.calls, open[k].callId) == id
  }

  lemma HeldExactly(db: Db, id: nat)
    ensures HeldBy(db.calls, OpenPositions(db.proposals, db.fills), id) <==> Held(db, id)
  {
    hide OpenPositions, CurrentCall;
    var ps := OpenPositions(db.proposals, db.fills);
    if HeldBy(db.calls, ps, id) {
      var p :| p in ps && CurrentCall(db.calls, p.callId) == id;
      var k :| 0 <= k < |ps| && ps[k] == p;
    }
  }

  /** An extension is accepted exactly for a call of the desk's own that is not an extension, has none, reached its horizon
      and is still held, with sound levels on fresh quotes. */
  lemma ExtendsExactlyWhen(db: Db, cfg: Config, id: nat, l: Levels, feed: Feed, now: Time)
    ensures Extend(db, cfg, id, l, feed, now).Ok? <==>
              && id < |db.calls| && !db.calls[id].origin.Legacy? && db.calls[id].parent.None?
              && (forall i :: 0 <= i < |db.calls| ==> db.calls[i].parent != Some(id))
              && id in db.resolutions && db.resolutions[id].Horizon? && Held(db, id)
              && cfg.rules.horizonMin <= l.horizon <= cfg.rules.horizonMax && 0.0 < l.target && 0.0 < l.invalidation
              && var c := db.calls[id];
                 && AllFresh(feed, {c.symbol, "SPY", c.benchmark}, now)
                 && LevelsFit(c.direction, feed.quotes[c.symbol].last, l.target, l.invalidation, cfg.rules)
  {
    if id < |db.calls| {
      var c := db.calls[id];
      var wanted := [c.symbol, "SPY", c.benchmark];
      HeldExactly(db, id);
      FreshExactlyWhen(feed, wanted, now);
      assert (set s | s in wanted) == {c.symbol, "SPY", c.benchmark};
      hide FreshQuotes, HeldBy, Held, OpenPositions, CheckLevels, LevelsFit, AllFresh;
      if AllFresh(feed, {c.symbol, "SPY", c.benchmark}, now) {
        FreshAnswers(feed, wanted, now);
        assert c.symbol in wanted;
        if 0.0 < l.target && 0.0 < l.invalidation {
          LevelsFitExactly(c.direction, feed.quotes[c.symbol].last, l.target, l.invalidation, cfg.rules);
        }
      }
    }
  }

  /** What an accepted extension says: the new levels, stamped with the prices of its moment, on the old call's terms. */
  lemma ExtensionSaysWhatWasAsked(db: Db, cfg: Config, id: nat, l: Levels, feed: Feed, now: Time)
    requires Extend(db, cfg, id, l, feed, now).Ok?
    ensures id < |db.calls|
    ensures var c, prior := Extend(db, cfg, id, l, feed, now).value, db.calls[id];
            && c.parent == Some(id) && c.madeAt == now && c.session == Day(now) && c.origin.FromPm?
            && c.target == l.target && c.invalidation == l.invalidation && c.horizon == l.horizon
            && c.symbol == prior.symbol && c.direction == prior.direction && c.benchmark == prior.benchmark
            && c.conviction == prior.conviction && c.funding == prior.funding
            && AllFresh(feed, {prior.symbol, "SPY", prior.benchmark}, now)
            && c.refPrice == feed.quotes[prior.symbol].last && c.spyRef == feed.quotes["SPY"].last
            && c.benchRef == feed.quotes[prior.benchmark].last
  {
    ExtendsExactlyWhen(db, cfg, id, l, feed, now);
    hide FreshQuotes, HeldBy, Held, OpenPositions, CheckLevels, LevelsFit, ExtensionOf;
    var prior := db.calls[id];
    var wanted := [prior.symbol, "SPY", prior.benchmark];
    assert (set s | s in wanted) == {prior.symbol, "SPY", prior.benchmark};
    FreshAnswers(feed, wanted, now);
  }

  /** A tightening is accepted exactly for an unresolved call of the desk's own that is held, to a positive level strictly
      between the governing level and the fresh last price; and then it is that level. */
  lemma TightensExactlyWhen(db: Db, id: nat, invalidation: real, feed: Feed, now: Time)
    ensures TightenTo(db, id, invalidation, feed, now).Ok? <==>
              && id < |db.calls| && !db.calls[id].origin.Legacy? && id !in db.resolutions && Held(db, id) && 0.0 < invalidation
              && AllFresh(feed, {db.calls[id].symbol}, now)
              && var level, last := EffectiveInvalidation(db.calls, db.tightenings, id), feed.quotes[db.calls[id].symbol].last;
                 if db.calls[id].direction.Up? then level < invalidation < last else last < invalidation < level
    ensures TightenTo(db, id, invalidation, feed, now).Ok? ==>
              TightenTo(db, id, invalidation, feed, now).value == Tightening(id, now, invalidation)
  {
    if id < |db.calls| {
      HeldExactly(db, id);
      FreshOne(feed, db.calls[id].symbol, now);
      hide FreshQuotes, HeldBy, Held, OpenPositions, AllFresh, EffectiveInvalidation;
    }
  }
}
