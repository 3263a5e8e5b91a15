/** One run, step by step: a book is started, a call is funded, posted and filled, and while a second call is between its
    check and its commit the first position is marked down. It shows that funded, filled runs exist, and that a mark in
    between can take the committed book over a cap. */
module DeskWitness {
  import opened Basics
  import opened Money
  import opened Clock
  import opened Calls
  import opened Sizing
  import opened Ledger
  import opened Desk
  import opened DeskInvariant
  import opened DeskRuns
  import opened DeskCaps

  const RULES := Rules(
    50.0, 10.0, 20.0, 30, 7,
    1.0, 1.0, 20.0, 1.0,
    100.0, 0.7,
    5, 1,
    map[3 := 50.0], map[3 := 5.0],
    0.0, 20.0, 5,
    1, 60, 50.0, 10)

  const CFG := Config(RULES, 0.0, 10 * HOUR, 15 * HOUR, {"SPY"})

  const MORNING := 9 * HOUR + 50 * MINUTE
  const VETO_OVER := 10 * HOUR + 10 * MINUTE
  const LATER := 10 * HOUR + 20 * MINUTE

  function At100(now: Time): Quote { Quote(100.0, 100.0, 100.0, now) }

  /** Fifty per cent of the book on shares of a name that trades at 100. */
  function Wanted(symbol: string): CallIn {
    CallIn(symbol, Up, 120.0, 80.0, 10, 3, "SPY", FundShares, Some(100.0), None, false)
  }

  function Market(symbol: string, now: Time): PmInput {
    PmInput({symbol}, {}, None, Answered(map["SPY" := At100(now), symbol := At100(now)]), map[], Some(10.0), NoMatch, Unavailable)
  }

  function Made(symbol: string, now: Time): Call {
    Call(now, Day(now), FromPm, None, symbol, Up, 120.0, 80.0, 10, 3, "SPY", 100.0, 100.0, 100.0, FundShares)
  }

  function Pledged(symbol: string, now: Time): Pledge {
    Pledge(Made(symbol, now), Some(Plan(Shares, symbol, 50, 100.0, Some(10.0))), now)
  }

  // ----- the tables along the run -----

  function Started(): Db { EMPTY.(start := Some(10000.0)) }

  const FIRST := Proposal(0, MORNING, Shares, "A", "A", 50, 100.0, Some(10.0))

  function Funded1(): Db { Started().(calls := [Made("A", MORNING)], proposals := [FIRST]) }

  function Posted(): Db { Funded1().(postings := map[0 := Posting(MORNING, VETO_OVER, Some("m"))]) }

  const BUY := Fill(0, VETO_OVER, Buy, 50, 100.0, Entry, Some(90.0), Some(89.1))

  function Filled1(): Db { Posted().(fills := [BUY], outcomes := [Outcome(0, VETO_OVER, Filled, false, false)]) }

  const HELD := Position(0, 0, Shares, "A", "A", 50, 100.0, VETO_OVER, Some(90.0), Some(89.1))

  function MarkedDown(): Db { Filled1().(marks := map["A" := 99.0]) }

  // ----- prices -----

  lemma Caps()
    ensures CapDollars(50.0, 10000.0) == 5000.0 && CapDollars(100.0, 10000.0) == 10000.0 && CapDollars(50.0, 9950.0) == 4975.0
  {
    WholeCap(50.0, 10000.0, 500000);
    WholeCap(100.0, 10000.0, 1000000);
    WholeCap(50.0, 9950.0, 497500);
  }

  lemma FiftyUnits()
    ensures UnitsWithin(5000.0, 100.0) == Ok(50)
  {
    assert 5000.0 / 100.0 == 50.0;
  }

  lemma StopOfTheBuy()
    ensures EntryStop(100.0, 10.0, 80.0, RULES) == Ok(Stop(90.0, 89.1))
  {
    assert TriggerPct(10.0, RULES) == 10.0;
    CentsAreHalfEven(90.0, 9000);
    assert 100.0 * (100.0 - 10.0) / 100.0 == 90.0;
    CeilCentsUnique(80.0, 80.0);
    FloorCentsUnique(89.1, 89.1);
    assert 90.0 * (100.0 - 1.0) / 100.0 == 89.1;
    hide Cents, CeilCents, FloorCents;
    assert LimitBelow(90.0, RULES) == 89.1;
  }

  // ----- the checks -----

  lemma QuotesAreFresh(symbol: string, now: Time)
    ensures FreshQuotes(Market(symbol, now).feed, [symbol, "SPY", "SPY"], now) ==
            Ok(map["SPY" := At100(now), symbol := At100(now)])
  {
    var feed := Market(symbol, now).feed;
    var wanted := [symbol, "SPY", "SPY"];
    assert wanted[1..] == ["SPY", "SPY"] && ["SPY", "SPY"][1..] == ["SPY"] && ["SPY"][1..] == [];
    assert FreshQuotes(feed, [], now) == Ok(feed.quotes);
    assert FreshQuotes(feed, ["SPY"], now) == Ok(feed.quotes);
    assert FreshQuotes(feed, ["SPY", "SPY"], now) == Ok(feed.quotes);
  }

  lemma PlanFits(book: BookState, symbol: string, now: Time)
    requires book.equity == 10000.0
    ensures PlanShares(CFG, book, Wanted(symbol), Market(symbol, now), 100.0) ==
            Ok(Plan(Shares, symbol, 50, 100.0, Some(10.0)))
  {
    Caps();
    FiftyUnits();
    hide CapDollars, UnitsWithin;
  }

  /** A book of 10,000 with 5,000 of cash and none of the name takes the order. */
  lemma OrderPasses(book: BookState, symbol: string)
    requires book.equity == 10000.0 && book.cash >= 5000.0 && |book.holdings| <= 1
    requires forall h :: h in book.holdings ==> h.symbol != symbol
    ensures CheckBook(book, Order(symbol, "SPY", 5000.0, false), {}, RULES, 0.0).Ok?
  {
    Caps();
    NothingOfTheName(book.holdings, symbol);
    hide CapDollars;
  }

  lemma NothingOfTheName(hs: seq<Holding>, symbol: string)
    requires |hs| <= 1 && forall h :: h in hs ==> h.symbol != symbol
    ensures Total(hs, ValueIn(symbol)) == 0.0 && Total(hs, ValueInCluster(symbol, "SPY", {})) == 0.0
  {
    if hs != [] {
      assert hs[0] in hs && hs[..0] == [];
      assert Total(hs[..0], ValueIn(symbol)) == 0.0 && Total(hs[..0], ValueInCluster(symbol, "SPY", {})) == 0.0;
    }
  }

  lemma SubmitPasses(db: Db, symbol: string, now: Time)
    requires db.start.Some? && Book(db, None).Ok? && Book(db, None).value.equity == 10000.0
    requires Book(db, None).value.cash >= 5000.0 && |Book(db, None).value.holdings| <= 1
    requires forall h :: h in Book(db, None).value.holdings ==> h.symbol != symbol
    requires CallsMadeOn(db.calls, Day(now)) < 5 && !OpenCallFor(db.calls, db.resolutions, symbol, Up, false)
    ensures Submit(db, CFG, Wanted(symbol), Market(symbol, now), now) == Ok(Pledged(symbol, now))
  {
    hide Book, CheckBook, CallsMadeOn, OpenCallFor, PlanShares, FreshQuotes, CorrelatedWith;
    var book := Book(db, None).value;
    QuotesAreFresh(symbol, now);
    PlanFits(book, symbol, now);
    var plan := Plan(Shares, symbol, 50, 100.0, Some(10.0));
    assert PlanOrder(Wanted(symbol), plan) == Order(symbol, "SPY", 5000.0, false);
    NothingMeasured(book, symbol);
    OrderPasses(book, symbol);
    assert CheckLevels(Up, 100.0, 120.0, 80.0, RULES).Ok?;
    hide CheckLevels;
    assert Fund(db, CFG, Wanted(symbol), Market(symbol, now), 100.0, now) == Ok(plan);
  }

  lemma NothingMeasured(book: BookState, symbol: string)
    ensures CorrelatedWith(book, symbol, map[], RULES) == {}
  {
  }

  // ----- the books -----

  lemma BookAtTheStart()
    ensures Book(Started(), None) == Ok(BookState(10000.0, 10000.0, []))
  {
  }

  lemma OneBuy()
    ensures FillsOf([BUY], 0) == [BUY] && OpenPositions([FIRST], [BUY]) == [HELD]
    ensures CashFlow([FIRST], [BUY]) == -5000.0
  {
    FillsAfter([], BUY, 0);
    assert [] + [BUY] == [BUY];
    OneBuyIsOnePosition(0, FIRST, BUY);
    assert [FIRST][..0] == [] && OpenPositions([], [BUY]) == [];
    CashFlowAfter([FIRST], [], BUY);
    assert Notional(100.0, 50, Shares) == 5000.0;
  }

  lemma SettledFirst(db: Db)
    requires db.fills == [BUY] && db.outcomes == [Outcome(0, VETO_OVER, Filled, false, false)]
    ensures Settled(db) == {0}
  {
    assert db.outcomes[0] in db.outcomes && db.fills[0] in db.fills;
  }

  lemma HeldHolding(marks: map<string, real>, price: real)
    requires price == if "A" in marks then marks["A"] else 100.0
    ensures PositionHoldings([Made("A", MORNING)], marks, [HELD]) == [Holding("A", price * 50.0, "SPY", false, 0.0, false)]
  {
    var calls: CallTable := [Made("A", MORNING)];
    assert [HELD][..0] == [] && ExtensionOf(calls, 0).None?;
    assert PositionHoldings(calls, marks, []) == [];
    assert Notional(price, 50, Shares) == price * 50.0;
  }

  lemma BookWithTheFirst(db: Db, price: real)
    requires db == Filled1().(marks := db.marks) && price == if "A" in db.marks then db.marks["A"] else 100.0
    ensures var h := Holding("A", price * 50.0, "SPY", false, 0.0, false);
            Book(db, None) == Ok(BookState(5000.0 + price * 50.0, 5000.0, [h]))
  {
    hide PositionHoldings, OpenPositions, CashFlow, Settled;
    OneBuy();
    SettledFirst(db);
    HeldHolding(db.marks, price);
    assert Settled(db) + Excluded(None) == {0};
    assert [FIRST][..0] == [] && Commitment([FIRST], {0}) == 0.0 && PledgeHoldings(db.calls, [FIRST], {0}) == [];
    var h := Holding("A", price * 50.0, "SPY", false, 0.0, false);
    assert [h] + [] == [h] && [h][..0] == [] && Total([h], MarketValue()) == price * 50.0;
  }

  /** With the first position marked down to 99 the second order no longer passes: its name may be 4,975 and it is 5,000. */
  lemma SecondOrderRefused()
    ensures Book(MarkedDown(), None).Ok?
    ensures CheckBook(Book(MarkedDown(), None).value, PledgeOrder(Pledged("BB", LATER)), {}, RULES, 0.0) == Refused(OverSingleName)
  {
    BookWithTheFirst(MarkedDown(), 99.0);
    Caps();
    hide CapDollars, Book;
    var book := Book(MarkedDown(), None).value;
    assert book.holdings[0].symbol == "A" && "A"[0] != "BB"[0];
    NothingOfTheName(book.holdings, "BB");
    assert PledgeOrder(Pledged("BB", LATER)) == Order("BB", "SPY", 5000.0, false);
  }

  // ----- the steps -----

  lemma CallsOnTheDay()
    ensures CallsMadeOn([], 0) == 0 && CallsMadeOn([Made("A", MORNING)], 0) == 1
    ensures !OpenCallFor([Made("A", MORNING)], map[], "BB", Up, false)
  {
    assert [Made("A", MORNING)][..0] == [] && Day(MORNING) == 0;
    assert |"A"| != |"BB"|;
  }

  lemma FirstIsPledged()
    ensures Submit(Started(), CFG, Wanted("A"), Market("A", MORNING), MORNING) == Ok(Pledged("A", MORNING))
  {
    BookAtTheStart();
    CallsOnTheDay();
    hide Book, Submit;
    assert Day(MORNING) == 0;
    SubmitPasses(Started(), "A", MORNING);
  }

  lemma SecondIsPledged()
    ensures Submit(Filled1(), CFG, Wanted("BB"), Market("BB", LATER), LATER) == Ok(Pledged("BB", LATER))
  {
    hide Book, Submit, CallsMadeOn, OpenCallFor, Filled1, Wanted, Market, Pledged;
    SecondBook();
    CallsOfTheFirst();
    assert Day(LATER) == 0;
    SubmitPasses(Filled1(), "BB", LATER);
  }

  lemma SecondBook()
    ensures var book := Book(Filled1(), None);
            && Filled1().start.Some? && book.Ok? && book.value.equity == 10000.0 && book.value.cash >= 5000.0
            && |book.value.holdings| <= 1 && forall h :: h in book.value.holdings ==> h.symbol != "BB"
  {
    hide Book;
    BookWithTheFirst(Filled1(), 100.0);
    assert |"A"| != |"BB"|;
  }

  lemma CallsOfTheFirst()
    ensures CallsMadeOn(Filled1().calls, 0) < 5 && !OpenCallFor(Filled1().calls, Filled1().resolutions, "BB", Up, false)
  {
    hide CallsMadeOn, OpenCallFor;
    CallsOnTheDay();
  }

  lemma FirstCommitted()
    ensures AllInsertable(Started(), CommitWrites(Started(), Pledged("A", MORNING)))
    ensures ApplyAll(Started(), CommitWrites(Started(), Pledged("A", MORNING))) == Funded1()
  {
    CommitApplied(Started(), Pledged("A", MORNING));
    hide ApplyAll, AllInsertable, CommitWrites;
    assert [] + [Made("A", MORNING)] == [Made("A", MORNING)] && [] + [FIRST] == [FIRST];
  }

  lemma FirstPosted()
    ensures PostWrite(Funded1(), CFG, 0, Some("m"), None, MORNING) == MarkPosted(0, Posting(MORNING, VETO_OVER, Some("m")))
    ensures Unposted(Funded1()) == [0]
  {
    assert Done([]) == {} && Outside(0, {}) == [] && Outside(1, {}) == [0];
    assert Done([]) + Funded1().postings.Keys == {};
  }

  lemma BookWithoutTheFirst()
    ensures Book(Posted(), Some(0)) == Ok(BookState(10000.0, 10000.0, []))
  {
    var db := Posted();
    assert Settled(db) + Excluded(Some(0)) == {0};
    assert [FIRST][..0] == [] && Commitment([FIRST], {0}) == 0.0 && PledgeHoldings(db.calls, [FIRST], {0}) == [];
    assert FillsOf([], 0) == [] && OpenPositions([], []) == [] && PositionsOf(0, FIRST, []) == [];
    assert OpenPositions([FIRST], []) == [];
  }

  function Approached(): EntryInput {
    EntryInput(Reaction(false, false, false), Answered(map["A" := At100(VETO_OVER)]), map[])
  }

  lemma FirstTaken()
    ensures Decide(Posted(), CFG, 0, Some(At100(VETO_OVER)), Some(At100(VETO_OVER)), map[]) == Take(100.0, Some(Stop(90.0, 89.1)))
  {
    var db := Posted();
    var calls: CallTable := db.calls;
    assert ExtensionOf(calls, 0).None? && CurrentCall(calls, 0) == 0;
    assert EffectiveInvalidation(calls, [], 0) == 80.0;
    StopOfTheBuy();
    BookWithoutTheFirst();
    hide EntryStop, Book, CheckBook, CorrelatedWith;
    assert EntryLevels(db, CFG, 0, 100.0, Some(At100(VETO_OVER))) == Ok(Some(Stop(90.0, 89.1)));
    hide EntryLevels;
    assert EntryOrder(db, 0, 100.0) == Order("A", "SPY", 5000.0, false);
    NothingMeasured(BookState(10000.0, 10000.0, []), "A");
    OrderPasses(BookState(10000.0, 10000.0, []), "A");
  }

  lemma FirstFilled()
    ensures EntryWrites(Posted(), CFG, 0, Approached(), VETO_OVER) == [Enter(BUY, Outcome(0, VETO_OVER, Filled, false, false))]
    ensures Pending(Posted()) == [0] && InSession(None, VETO_OVER) && InSession(None, LATER)
  {
    FirstTaken();
    hide Decide;
    assert Done([]) == {} && Outside(0, {}) == [] && Outside(1, {}) == [0];
    assert Weekday(0) == 3 && Day(VETO_OVER) == 0 && Day(LATER) == 0 && Day(MORNING) == 0;
    assert At(0, 9 * HOUR + 30 * MINUTE) <= VETO_OVER < LATER < At(0, 16 * HOUR);
    assert TimeOfDay(VETO_OVER) < ENTRY_CUTOFF;
  }

  function Down(): ExitInput {
    var q := Quote(99.0, 99.0, 99.0, LATER);
    ExitInput(Some(q), Some(q), 0, false)
  }

  lemma FirstMarked()
    ensures ExitWrites(Filled1(), CFG, HELD, Down(), LATER) == [MarkPrice("A", 99.0)]
  {
    var calls: CallTable := Filled1().calls;
    assert ExtensionOf(calls, 0).None? && CurrentCall(calls, 0) == 0;
    assert EffectiveInvalidation(calls, [], 0) == 80.0;
    CeilCentsUnique(80.0, 80.0);
    hide CeilCents;
    assert LiveTrigger(HELD, 80.0) == 90.0;
    hide LiveTrigger;
  }

  // ----- the run -----

  const STEPS := [
    Begin(10000.0, MORNING),
    Check(Wanted("A"), Market("A", MORNING), MORNING),
    Commit(MORNING),
    PostStep(0, Some("m"), None, MORNING),
    EntryStep(0, Approached(), None, VETO_OVER),
    Check(Wanted("BB"), Market("BB", LATER), LATER),
    ExitStep(HELD, Down(), None, LATER),
    Commit(LATER)]

  ghost function Final(): Db { MarkedDown().(calls := MarkedDown().calls + [Made("BB", LATER)],
                                             proposals := MarkedDown().proposals + [ProposalFor(1, Pledged("BB", LATER))]) }

  ghost function States(): seq<State> {
    [State(EMPTY, None, MORNING),
     State(Started(), None, MORNING),
     State(Started(), Some(Pledged("A", MORNING)), MORNING),
     State(Funded1(), None, MORNING),
     State(Posted(), None, MORNING),
     State(Filled1(), None, VETO_OVER),
     State(Filled1(), Some(Pledged("BB", LATER)), LATER),
     State(MarkedDown(), Some(Pledged("BB", LATER)), LATER),
     State(Final(), None, LATER)]
  }

  lemma Opening()
    ensures Next(CFG, State(EMPTY, None, MORNING), Begin(10000.0, MORNING), State(Started(), None, MORNING))
  {
    ApplyOne(EMPTY, StartBook(10000.0));
  }

  lemma Checking(db: Db, symbol: string, clock: Time, now: Time)
    requires clock <= now && Submit(db, CFG, Wanted(symbol), Market(symbol, now), now) == Ok(Pledged(symbol, now))
    ensures Next(CFG, State(db, None, clock), Check(Wanted(symbol), Market(symbol, now), now),
                 State(db, Some(Pledged(symbol, now)), now))
  {
    hide Submit;
  }

  lemma Committing()
    ensures Next(CFG, State(Started(), Some(Pledged("A", MORNING)), MORNING), Commit(MORNING), State(Funded1(), None, MORNING))
  {
    hide CommitWrites, Pledged, Started, Funded1, ApplyAll;
    FirstCommitted();
  }

  lemma PostingTheFirst()
    ensures Next(CFG, State(Funded1(), None, MORNING), PostStep(0, Some("m"), None, MORNING), State(Posted(), None, MORNING))
  {
    hide PostWrite, Unposted;
    FirstPosted();
    ApplyOne(Funded1(), MarkPosted(0, Posting(MORNING, VETO_OVER, Some("m"))));
  }

  lemma FillingTheFirst()
    ensures Next(CFG, State(Posted(), None, MORNING), EntryStep(0, Approached(), None, VETO_OVER),
                 State(Filled1(), None, VETO_OVER))
  {
    hide EntryWrites, Pending, InSession;
    FirstFilled();
    ApplyOne(Posted(), Enter(BUY, Outcome(0, VETO_OVER, Filled, false, false)));
  }

  lemma MarkApplied()
    ensures Insertable(Filled1(), MarkPrice("A", 99.0)) && Apply(Filled1(), MarkPrice("A", 99.0)) == MarkedDown()
  {
  }

  lemma HeldAtLast()
    ensures HELD in OpenPositions(Filled1().proposals, Filled1().fills) && HELD.callId < |Filled1().calls|
  {
    hide OpenPositions;
    OneBuy();
  }

  lemma MarkingTheFirst()
    ensures Next(CFG, State(Filled1(), Some(Pledged("BB", LATER)), LATER), ExitStep(HELD, Down(), None, LATER),
                 State(MarkedDown(), Some(Pledged("BB", LATER)), LATER))
  {
    hide ExitWrites, InSession, OpenPositions, Pledged, Filled1, MarkedDown, Apply;
    FirstMarked();
    FirstFilled();
    HeldAtLast();
    MarkApplied();
    ApplyOne(Filled1(), MarkPrice("A", 99.0));
  }

  lemma CommittingTheSecond()
    ensures Next(CFG, State(MarkedDown(), Some(Pledged("BB", LATER)), LATER), Commit(LATER), State(Final(), None, LATER))
  {
    hide CommitWrites, ApplyAll, MarkedDown, Final, Pledged;
    CommittedSecond();
  }

  /** The eight steps are a run. */
  lemma ItIsARun()
    ensures SaneRules(CFG.rules) && Run(CFG, STEPS, States())
  {
    hide Next, Submit;
    Opening();
    FirstIsPledged();
    Checking(Started(), "A", MORNING, MORNING);
    Committing();
    PostingTheFirst();
    FillingTheFirst();
    SecondIsPledged();
    Checking(Filled1(), "BB", VETO_OVER, LATER);
    MarkingTheFirst();
    CommittingTheSecond();
    hide Started, Funded1, Posted, Filled1, MarkedDown, Final, Pledged, Wanted, Market, Approached, Down;
  }

  lemma BeforeTheCommit()
    ensures RowsOk(MarkedDown()) && FillsOk(MarkedDown())
  {
    hide Run, CallsOk, LifeOk, MoneyOk, PledgeOk, RowsOk, FillsOk, SaneRules;
    ItIsARun();
    EveryStateIsGood(CFG, STEPS, States(), 7);
    assert States()[7].db == MarkedDown();
  }

  lemma FinalBookIsOver()
    ensures Book(Final(), None).Ok?
    ensures !WithinCaps(Book(Final(), None).value, PledgeOrder(Pledged("BB", LATER)), {}, CFG.rules, CFG.reserve)
  {
    hide WithinCaps, Book, CheckBook, RowsOk, FillsOk, ApplyAll, CommitWrites, Final, PledgeOrder;
    BeforeTheCommit();
    SecondOrderRefused();
    CommittedSecond();
    CommitMeetsCapsExactly(CFG, MarkedDown(), Pledged("BB", LATER), {});
  }

  /** A mark between check and commit can break a cap: in this run the second call passed its check, the first position was
      then marked from 100 to 99, and the book the commit leaves is over the single-name cap. */
  lemma AMarkBetweenCheckAndCommitBreaksACap()
    ensures Run(CFG, STEPS, States()) && STEPS[5].Check? && STEPS[6].ExitStep? && STEPS[7].Commit?
    ensures States()[6].pledge == Some(Pledged("BB", LATER)) && Book(States()[8].db, None).Ok?
    ensures !WithinCaps(Book(States()[8].db, None).value, PledgeOrder(Pledged("BB", LATER)), {}, CFG.rules, CFG.reserve)
  {
    hide Run, WithinCaps, Book, Final, PledgeOrder, Pledged, Started, Funded1, Posted, Filled1, MarkedDown;
    ItIsARun();
    FinalBookIsOver();
  }

  lemma CommittedSecond()
    ensures AllInsertable(MarkedDown(), CommitWrites(MarkedDown(), Pledged("BB", LATER)))
    ensures ApplyAll(MarkedDown(), CommitWrites(MarkedDown(), Pledged("BB", LATER))) == Final()
  {
    CommitApplied(MarkedDown(), Pledged("BB", LATER));
    hide CommitWrites, ApplyAll;
  }
}
