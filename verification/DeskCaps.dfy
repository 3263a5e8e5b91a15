/** The caps of sizing.py over the book itself: what holds of it after a funded call, with other steps between its check
    and its commit, and after an entry. */
module DeskCaps {
  import opened Basics
  import opened Clock
  import opened Calls
  import opened Sizing
  import opened Ledger
  import opened Desk
  import opened DeskInvariant
  import opened DeskRuns
  import opened DeskTheorems

  // ----- caps on the book after a funded call -----

  lemma {:induction false} HoldingsIgnoreNewCall(calls: CallTable, c: Call, marks: map<string, real>, ps: seq<Position>)
    requires c.parent.None? && forall p :: p in ps ==> p.callId < |calls|
    ensures Forward(calls + [c]) && PositionHoldings(calls + [c], marks, ps) == PositionHoldings(calls, marks, ps)
  {
    CurrentAfterNewCall(calls, c, 0);
    if ps != [] {
      var p := ps[|ps| - 1];
      assert p in ps;
      HoldingsIgnoreNewCall(calls, c, marks, ps[..|ps| - 1]);
      CurrentAfterNewCall(calls, c, p.callId);
    }
  }

  lemma {:induction false} PledgesIgnoreNewCall(calls: seq<Call>, c: Call, proposals: seq<Proposal>, out: set<nat>)
    requires forall p :: p in proposals ==> p.callId < |calls|
    ensures PledgeHoldings(calls + [c], proposals, out) == PledgeHoldings(calls, proposals, out)
  {
    if proposals != [] {
      var id := |proposals| - 1;
      assert proposals[id] in proposals;
      PledgesIgnoreNewCall(calls, c, proposals[..id], out);
    }
  }

  lemma PositionsHaveCalls(db: Db)
    requires RowsOk(db) && FillsOk(db)
    ensures forall p :: p in OpenPositions(db.proposals, db.fills) ==> p.callId < |db.calls|
  {
    forall p | p in OpenPositions(db.proposals, db.fills) ensures p.callId < |db.calls| {
      PositionIsItsBuy(db, p);
      assert ProposalOk(db, db.proposals[p.proposal]);
    }
  }

  lemma HoldingsOf(db: Db)
    requires db.start.Some?
    ensures Book(db, None).Ok?
    ensures Book(db, None).value.holdings ==
            PositionHoldings(db.calls, db.marks, OpenPositions(db.proposals, db.fills)) +
            PledgeHoldings(db.calls, db.proposals, Settled(db))
  {
    assert Settled(db) + Excluded(None) == Settled(db);
  }

  ghost function Funded(db: Db, p: Pledge): Db
    requires p.plan.Some? && p.call.parent.None?
  {
    db.(calls := db.calls + [p.call], proposals := db.proposals + [ProposalFor(|db.calls|, p)])
  }

  lemma FundedHoldings(db: Db, p: Pledge)
    requires RowsOk(db) && FillsOk(db) && db.start.Some? && p.plan.Some? && p.call.parent.None?
    ensures Book(db, None).Ok? && Book(Funded(db, p), None).Ok?
    ensures Book(Funded(db, p), None).value.holdings ==
            Book(db, None).value.holdings + [PledgedAs(db.calls + [p.call], ProposalFor(|db.calls|, p))]
    ensures PositionHoldings(Funded(db, p).calls, db.marks, OpenPositions(Funded(db, p).proposals, db.fills)) ==
            PositionHoldings(db.calls, db.marks, OpenPositions(db.proposals, db.fills))
  {
    hide Book, OpenPositions, RowsOk, FillsOk, PledgedAs, PositionHoldings, PledgeHoldings, Settled, Committed, NetCash;
    var prop := ProposalFor(|db.calls|, p);
    HoldingsOf(db);
    HoldingsOf(Funded(db, p));
    SettledFunded(db, p);
    NewProposalMoney(db, prop);
    PositionsHaveCalls(db);
    HoldingsIgnoreNewCall(db.calls, p.call, db.marks, OpenPositions(db.proposals, db.fills));
    NewPledgeIsLast(db, p);
    var held := PositionHoldings(db.calls, db.marks, OpenPositions(db.proposals, db.fills));
    var pledged := PledgeHoldings(db.calls, db.proposals, Settled(db));
    assert held + (pledged + [PledgedAs(db.calls + [p.call], prop)]) == held + pledged + [PledgedAs(db.calls + [p.call], prop)];
  }

  lemma SettledFunded(db: Db, p: Pledge)
    requires p.plan.Some? && p.call.parent.None?
    ensures Settled(Funded(db, p)) == Settled(db)
  {
  }

  lemma FundedCash(db: Db, p: Pledge)
    requires RowsOk(db) && FillsOk(db) && db.start.Some? && p.plan.Some? && p.call.parent.None?
    ensures Book(db, None).Ok? && Book(Funded(db, p), None).Ok?
    ensures Book(Funded(db, p), None).value.cash == Book(db, None).value.cash - PlanCost(p.plan.value)
    ensures Book(Funded(db, p), None).value.equity == Book(db, None).value.equity
  {
    var prop := ProposalFor(|db.calls|, p);
    NewProposalMoney(db, prop);
    NewProposalFlow(db, prop);
    assert NetCash(Funded(db, p)) == NetCash(db.(proposals := db.proposals + [prop]));
    EquityIgnoresCommitments(db, None);
    EquityIgnoresCommitments(Funded(db, p), None);
    FundedHoldings(db, p);
    hide Book, NetCash, OpenPositions, PositionHoldings, CashFlow, Total, Notional;
  }

  /** The book after a funded call is the book before it with the call's worst case carried as one more holding. */
  lemma FundedCallIsCarried(db: Db, p: Pledge)
    requires RowsOk(db) && FillsOk(db) && db.start.Some? && p.plan.Some? && p.call.parent.None?
    ensures AllInsertable(db, CommitWrites(db, p))
    ensures Book(db, None).Ok? && Book(ApplyAll(db, CommitWrites(db, p)), None).Ok?
    ensures Carries(Book(ApplyAll(db, CommitWrites(db, p)), None).value, Book(db, None).value,
                    Order(p.call.symbol, p.call.benchmark, PlanCost(p.plan.value), !p.plan.value.instrument.Shares?))
  {
    hide Book, RowsOk, FillsOk, Notional, CommitWrites;
    CommitApplied(db, p);
    FundedHoldings(db, p);
    FundedCash(db, p);
  }

  lemma NewProposalFlow(db: Db, p: Proposal)
    requires RowsOk(db)
    ensures CashFlow(db.proposals + [p], db.fills) == CashFlow(db.proposals, db.fills)
  {
    CashFlowIgnoresNewProposal(db.proposals, p, db.fills);
  }

  lemma NewPledgeIsLast(db: Db, p: Pledge)
    requires RowsOk(db) && p.plan.Some?
    ensures PledgeHoldings(db.calls + [p.call], db.proposals + [ProposalFor(|db.calls|, p)], Settled(db)) ==
            PledgeHoldings(db.calls, db.proposals, Settled(db)) +
            [PledgedAs(db.calls + [p.call], ProposalFor(|db.calls|, p))]
  {
    var prop := ProposalFor(|db.calls|, p);
    forall q | q in db.proposals ensures q.callId < |db.calls| {
      var k :| 0 <= k < |db.proposals| && db.proposals[k] == q;
      assert ProposalOk(db, db.proposals[k]);
    }
    PledgesIgnoreNewCall(db.calls, p.call, db.proposals, Settled(db));
    Snoc(db.proposals, prop);
    assert |db.proposals| !in Settled(db);
  }

  /** What a checked call asks of the book. */
  function PledgeOrder(p: Pledge): Order
    requires p.plan.Some?
  {
    Order(p.call.symbol, p.call.benchmark, PlanCost(p.plan.value), !p.plan.value.instrument.Shares?)
  }

  /** Caps on the post-state, exactly: whatever happened since its check, committing a funded call leaves a book within
      every cap against its own equity if and only if the check would pass on the book at the commit. */
  lemma CommitMeetsCapsExactly(cfg: Config, db: Db, p: Pledge, correlated: set<string>)
    requires RowsOk(db) && FillsOk(db) && db.start.Some? && p.plan.Some? && p.call.parent.None?
    ensures AllInsertable(db, CommitWrites(db, p))
    ensures Book(db, None).Ok? && Book(ApplyAll(db, CommitWrites(db, p)), None).Ok?
    ensures Book(ApplyAll(db, CommitWrites(db, p)), None).value.equity == Book(db, None).value.equity
    ensures WithinCaps(Book(ApplyAll(db, CommitWrites(db, p)), None).value, PledgeOrder(p), correlated, cfg.rules, cfg.reserve)
            <==> CheckBook(Book(db, None).value, PledgeOrder(p), correlated, cfg.rules, cfg.reserve).Ok?
  {
    hide RowsOk, FillsOk, Book, CheckBook, WithinCaps, Carries, CommitWrites, ApplyAll;
    FundedCallIsCarried(db, p);
    var before, after := Book(db, None).value, Book(ApplyAll(db, CommitWrites(db, p)), None).value;
    CarriedEquity(after, before, PledgeOrder(p));
    CheckIsCapsOnTheNextBook(before, after, PledgeOrder(p), correlated, cfg.rules, cfg.reserve);
  }

  lemma CarriedEquity(after: BookState, before: BookState, o: Order)
    requires Carries(after, before, o)
    ensures after.equity == before.equity
  {
  }

  lemma FundedPledgePassed(cfg: Config, db: Db, cin: CallIn, pin: PmInput, now: Time)
    requires Submit(db, cfg, cin, pin, now).Ok? && Submit(db, cfg, cin, pin, now).value.plan.Some?
    ensures var p := Submit(db, cfg, cin, pin, now).value;
            && db.start.Some? && Book(db, None).Ok?
            && p.call.parent.None? && p.call.symbol == cin.symbol && p.call.benchmark == cin.benchmark
            && CheckBook(Book(db, None).value, PlanOrder(cin, p.plan.value),
                         CorrelatedWith(Book(db, None).value, cin.symbol, pin.measured, cfg.rules), cfg.rules, cfg.reserve).Ok?
  {
    hide CheckBook, CorrelatedWith, PlanShares, PlanOption, OpenCallFor, CallsMadeOn, CheckLevels, ConvictionPct;
  }

  // ----- an entry -----

  lemma {:induction false} SameFillsSamePositions(proposals: seq<Proposal>, a: seq<Fill>, b: seq<Fill>)
    requires forall i :: 0 <= i < |proposals| ==> FillsOf(a, i) == FillsOf(b, i)
    ensures OpenPositions(proposals, a) == OpenPositions(proposals, b)
  {
    if proposals != [] {
      SameFillsSamePositions(proposals[..|proposals| - 1], a, b);
    }
  }

  /** A proposal that gains a position gains one row of the list, where the older proposals' rows end. */
  lemma {:induction false} PositionInserted(proposals: seq<Proposal>, a: seq<Fill>, b: seq<Fill>, id: nat, pos: Position)
    requires id < |proposals| && forall i :: 0 <= i < |proposals| && i != id ==> FillsOf(a, i) == FillsOf(b, i)
    requires PositionsOf(id, proposals[id], FillsOf(a, id)) == [] && PositionsOf(id, proposals[id], FillsOf(b, id)) == [pos]
    ensures var at, ps := |OpenPositions(proposals[..id], a)|, OpenPositions(proposals, a);
            at <= |ps| && OpenPositions(proposals, b) == ps[..at] + [pos] + ps[at..]
  {
    hide PositionsOf, FillsOf;
    var last := |proposals| - 1;
    var init := proposals[..last];
    if last == id {
      SameFillsSamePositions(init, a, b);
    } else {
      assert init[id] == proposals[id] && init[..id] == proposals[..id];
      PositionInserted(init, a, b, id, pos);
      assert FillsOf(a, last) == FillsOf(b, last);
    }
  }

  lemma {:induction false} HoldingsOfConcat(calls: CallTable, marks: map<string, real>, a: seq<Position>, b: seq<Position>)
    ensures PositionHoldings(calls, marks, a + b) == PositionHoldings(calls, marks, a) + PositionHoldings(calls, marks, b)
    decreases |b|
  {
    if b == [] {
      assert a + b == a;
    } else {
      var k := |b| - 1;
      assert (a + b)[..|a + b| - 1] == a + b[..k];
      HoldingsOfConcat(calls, marks, a, b[..k]);
    }
  }

  lemma HoldingInserted(calls: CallTable, marks: map<string, real>, ps: seq<Position>, pos: Position, at: nat)
    requires at <= |ps|
    ensures var hs := PositionHoldings(calls, marks, ps);
            PositionHoldings(calls, marks, ps[..at] + [pos] + ps[at..]) == hs[..at] + [HeldAs(calls, marks, pos)] + hs[at..]
  {
    hide HeldAs;
    assert ps == ps[..at] + ps[at..];
    HoldingsOfConcat(calls, marks, ps[..at], ps[at..]);
    HoldingsOfConcat(calls, marks, ps[..at], [pos]);
    HoldingsOfConcat(calls, marks, ps[..at] + [pos], ps[at..]);
    assert [pos][..0] == [];
  }

  /** What an entered position is marked at: the stored mark of its symbol, else the price paid. */
  function EntryWorth(db: Db, buy: Fill): real
    requires buy.proposal < |db.proposals|
  {
    var p := db.proposals[buy.proposal];
    Notional(if p.symbol in db.marks then db.marks[p.symbol] else buy.price, p.quantity, p.instrument)
  }

  lemma EnteredPositions(db: Db, buy: Fill, pos: Position)
    requires RowsOk(db) && FillsOk(db) && buy.proposal in Committed(db)
    requires IsTrade(buy, Buy, db.proposals[buy.proposal].quantity)
    requires var p := db.proposals[buy.proposal];
             pos == Position(buy.proposal, p.callId, p.instrument, p.symbol, p.underlying, p.quantity, buy.price, buy.at,
                             buy.stopTrigger, buy.stopLimit)
    ensures var at, ps := |OpenPositions(db.proposals[..buy.proposal], db.fills)|, OpenPositions(db.proposals, db.fills);
            at <= |ps| && OpenPositions(db.proposals, db.fills + [buy]) == ps[..at] + [pos] + ps[at..]
  {
    var id := buy.proposal;
    CommittedIsOpen(db, id);
    assert ProposalOk(db, db.proposals[id]);
    FillsChangeOne(db, buy);
    FillsAfter(db.fills, buy, id);
    assert FillsOf(db.fills + [buy], id) == [buy];
    OneBuyIsOnePosition(id, db.proposals[id], buy);
    PositionInserted(db.proposals, db.fills, db.fills + [buy], id, pos);
  }

  lemma TakesAfterInsert(before: BookState, after: BookState, held: seq<Holding>, rest: seq<Holding>, h: Holding, o: Order, at: nat)
    requires at <= |held| && before.holdings == held + rest && after.holdings == held[..at] + [h] + held[at..] + rest
    requires after.cash == before.cash - o.notional
    requires before.equity == before.cash + Total(before.holdings, MarketValue())
    requires after.equity == after.cash + Total(after.holdings, MarketValue())
    requires h.symbol == o.symbol && h.benchmark == o.benchmark && h.isOption == o.isOption
    requires h.premium == if o.isOption then o.notional else 0.0
    ensures Takes(after, before, o, h.marketValue, at)
  {
    assert after.holdings == before.holdings[..at] + [h] + before.holdings[at..];
    TotalOfInsert(before.holdings, h, at, MarketValue());
  }

  /** The book after an entry is the book without its proposal, taking the order at its price, marked where its symbol is. */
  lemma EntryIsTaken(db: Db, buy: Fill, row: Outcome)
    requires RowsOk(db) && FillsOk(db) && db.start.Some? && buy.proposal in Committed(db) && row.proposal == buy.proposal
    requires IsTrade(buy, Buy, db.proposals[buy.proposal].quantity) && db.proposals[buy.proposal].callId < |db.calls|
    ensures Book(db, Some(buy.proposal)).Ok? && Book(Apply(db, Enter(buy, row)), None).Ok?
    ensures Takes(Book(Apply(db, Enter(buy, row)), None).value, Book(db, Some(buy.proposal)).value,
                  EntryOrder(db, buy.proposal, buy.price), EntryWorth(db, buy),
                  |OpenPositions(db.proposals[..buy.proposal], db.fills)|)
  {
    hide RowsOk, FillsOk, Committed, OpenPositions, Settled, PledgeHoldings, PositionHoldings, CashFlow, Commitment,
      Notional, CurrentCall;
    var id, after := buy.proposal, Apply(db, Enter(buy, row));
    CommittedIsOpen(db, id);
    var p := db.proposals[id];
    var pos := Position(id, p.callId, p.instrument, p.symbol, p.underlying, p.quantity, buy.price, buy.at,
                        buy.stopTrigger, buy.stopLimit);
    EnteredPositions(db, buy, pos);
    SettledAfterEnter(db, buy, row);
    assert Settled(after) + Excluded(None) == Settled(db) + Excluded(Some(id));
    CashFlowAfter(db.proposals, db.fills, buy);
    var at, ps := |OpenPositions(db.proposals[..id], db.fills)|, OpenPositions(db.proposals, db.fills);
    HoldingInserted(db.calls, db.marks, ps, pos, at);
    CurrentInTable(db.calls, p.callId);
    TakesAfterInsert(Book(db, Some(id)).value, Book(after, None).value, PositionHoldings(db.calls, db.marks, ps),
                     PledgeHoldings(db.calls, db.proposals, Settled(db) + Excluded(Some(id))),
                     HeldAs(db.calls, db.marks, pos), EntryOrder(db, id, buy.price), at);
  }

  lemma CurrentInTable(calls: CallTable, id: nat)
    requires id < |calls|
    ensures CurrentCall(calls, id) < |calls|
  {
  }

  /** The fill-time check and the book it leaves: the entry's own book is within every cap exactly when the entry fits at
      its mark; with no stored mark of its symbol, or one at the price paid, exactly when the check passed. */
  lemma EntryMeetsCapsExactly(cfg: Config, db: Db, buy: Fill, row: Outcome, correlated: set<string>)
    requires RowsOk(db) && FillsOk(db) && db.start.Some? && buy.proposal in Committed(db) && row.proposal == buy.proposal
    requires IsTrade(buy, Buy, db.proposals[buy.proposal].quantity) && db.proposals[buy.proposal].callId < |db.calls|
    ensures Book(db, Some(buy.proposal)).Ok? && Book(Apply(db, Enter(buy, row)), None).Ok?
    ensures var o, before, after :=
              EntryOrder(db, buy.proposal, buy.price), Book(db, Some(buy.proposal)).value,
              Book(Apply(db, Enter(buy, row)), None).value;
            var symbol := db.proposals[buy.proposal].symbol;
            && (WithinCaps(after, o, correlated, cfg.rules, cfg.reserve)
                <==> FitsAt(before, o, EntryWorth(db, buy), correlated, cfg.rules, cfg.reserve))
            && (symbol !in db.marks || db.marks[symbol] == buy.price ==>
                  (WithinCaps(after, o, correlated, cfg.rules, cfg.reserve)
                   <==> CheckBook(before, o, correlated, cfg.rules, cfg.reserve).Ok?))
  {
    hide RowsOk, FillsOk, Committed, Book, Takes, WithinCaps, FitsAt, CheckBook, Apply, OpenPositions;
    CommittedIsOpen(db, buy.proposal);
    EntryIsTaken(db, buy, row);
    var o, before, after :=
      EntryOrder(db, buy.proposal, buy.price), Book(db, Some(buy.proposal)).value, Book(Apply(db, Enter(buy, row)), None).value;
    TakenFitsAtItsMark(before, after, o, EntryWorth(db, buy), |OpenPositions(db.proposals[..buy.proposal], db.fills)|,
                       correlated, cfg.rules, cfg.reserve);
    FitsAtItsCost(before, o, correlated, cfg.rules, cfg.reserve);
  }

  /** The step that wrote an entry, having passed the caps at the price it paid against the book without its proposal. */
  ghost predicate Checked(cfg: Config, s: State, step: Step, s': State, f: Fill) {
    && step.EntryStep? && step.id == f.proposal && f.proposal < |s.db.proposals|
    && s.db.proposals[f.proposal].callId < |s.db.calls|
    && (exists row :: s'.db == Apply(s.db, Enter(f, row)))
    && Book(s.db, Some(f.proposal)).Ok? && Book(s'.db, None).Ok?
    && var o, before := EntryOrder(s.db, f.proposal, f.price), Book(s.db, Some(f.proposal)).value;
       var correlated := CorrelatedWith(before, o.symbol, step.entry.measured, cfg.rules);
       && CheckBook(before, o, correlated, cfg.rules, cfg.reserve).Ok?
       && (WithinCaps(Book(s'.db, None).value, o, correlated, cfg.rules, cfg.reserve)
           <==> FitsAt(before, o, EntryWorth(s.db, f), correlated, cfg.rules, cfg.reserve))
       && (s.db.proposals[f.proposal].symbol !in s.db.marks ==>
             WithinCaps(Book(s'.db, None).value, o, correlated, cfg.rules, cfg.reserve))
  }

  lemma TakenPassedCaps(cfg: Config, db: Db, id: nat, q: Option<Quote>, u: Option<Quote>, measured: map<string, real>)
    requires id < |db.proposals| && db.proposals[id].callId < |db.calls| && Decide(db, cfg, id, q, u, measured).Take?
    ensures Book(db, Some(id)).Ok?
    ensures var o, before := EntryOrder(db, id, Decide(db, cfg, id, q, u, measured).price), Book(db, Some(id)).value;
            CheckBook(before, o, CorrelatedWith(before, o.symbol, measured, cfg.rules), cfg.rules, cfg.reserve).Ok?
  {
    hide EntryLevels, CheckBook, CorrelatedWith, Book, Notional, CurrentCall;
  }

  /** The writes of an entry step that buys are one entry, decided by its quotes. */
  lemma BuyingPass(cfg: Config, db: Db, id: nat, e: EntryInput, now: Time, k: nat, f: Fill)
    requires id < |db.proposals| && db.proposals[id].callId < |db.calls|
    requires k < |EntryWrites(db, cfg, id, e, now)| && EntryWrites(db, cfg, id, e, now)[k].Enter?
    requires EntryWrites(db, cfg, id, e, now)[k].buy == f
    ensures e.feed.Answered? && f.proposal == id && f.quantity == db.proposals[id].quantity && f.side.Buy?
    ensures |EntryWrites(db, cfg, id, e, now)| == 1 && k == 0
    ensures var p := db.proposals[id];
            var d := Decide(db, cfg, id, Find(e.feed.quotes, p.symbol), Find(e.feed.quotes, p.underlying), e.measured);
            d.Take? && d.price == f.price
  {
    hide Decide;
  }

  lemma EntryStepWasChecked(cfg: Config, s: State, step: Step, s': State, k: nat, f: Fill)
    requires SaneRules(cfg.rules) && Good(cfg, s) && Next(cfg, s, step, s') && step.EntryStep?
    requires k < |Writes(cfg, s, step)| && Writes(cfg, s, step)[k].Enter? && Writes(cfg, s, step)[k].buy == f
    ensures Checked(cfg, s, step, s', f)
  {
    hide CallsOk, LifeOk, MoneyOk, PledgeOk, RowsOk, FillsOk, EntryWrites, Decide, Book, CheckBook, WithinCaps,
      FitsAt, CorrelatedWith, EntryOrder, EntryWorth, InSession, Apply;
    var db, id, e := s.db, step.id, step.entry;
    BuyingPass(cfg, db, id, e, step.now, k, f);
    EntryIsJustified(cfg, s, id, e, step.now);
    var p := db.proposals[id];
    TakenPassedCaps(cfg, db, id, Find(e.feed.quotes, p.symbol), Find(e.feed.quotes, p.underlying), e.measured);
    var w := Writes(cfg, s, step)[0];
    assert Writes(cfg, s, step) == [w];
    ApplyOne(db, w);
    assert w == Enter(f, w.row);
    StartedBook(db, f.proposal);
    OrderNames(db, id, f.price);
    EntryMeetsCapsExactly(cfg, db, f, w.row, CorrelatedWith(Book(db, Some(id)).value, p.underlying, e.measured, cfg.rules));
  }

  lemma StartedBook(db: Db, id: nat)
    requires RowsOk(db) && id < |db.proposals|
    ensures db.start.Some?
  {
  }

  lemma OrderNames(db: Db, id: nat, price: real)
    requires id < |db.proposals| && db.proposals[id].callId < |db.calls|
    ensures EntryOrder(db, id, price).symbol == db.proposals[id].underlying
  {
  }

  /** In every run, every entry fill passed the caps at the price it paid when it was written; the book it left is within
      them exactly when it fits at its mark, and always when its symbol had no mark. */
  lemma {:induction false} EveryEntryPassedTheCaps(cfg: Config, steps: seq<Step>, states: seq<State>, i: nat, f: Fill)
    requires SaneRules(cfg.rules) && Run(cfg, steps, states) && i < |states|
    requires f in states[i].db.fills && f.side.Buy?
    ensures exists k :: 0 <= k < i && Checked(cfg, states[k], steps[k], states[k + 1], f)
  {
    hide Good, Checked, Writes, Enabled, PledgeAfter;
    if f in states[0].db.fills {
      assert false;
    } else if f in states[i - 1].db.fills {
      EveryEntryPassedTheCaps(cfg, steps, states, i - 1, f);
    } else {
      var s, step, s' := states[i - 1], steps[i - 1], states[i];
      EveryStateIsGood(cfg, steps, states, i - 1);
      assert Next(cfg, s, step, s');
      NewBuyIsEntered(cfg, s, step, s', f);
      NewFillIsWritten(s.db, Writes(cfg, s, step), f);
      var k :| 0 <= k < |Writes(cfg, s, step)| && BuysOrSells(Writes(cfg, s, step)[k], f);
      EntryWritesOnlyEnter(cfg, s, step, k, f);
      EntryStepWasChecked(cfg, s, step, s', k, f);
    }
  }

  lemma EntryWritesOnlyEnter(cfg: Config, s: State, step: Step, k: nat, f: Fill)
    requires Enabled(cfg, s, step) && step.EntryStep? && k < |Writes(cfg, s, step)| && BuysOrSells(Writes(cfg, s, step)[k], f)
    ensures Writes(cfg, s, step)[k].Enter? && Writes(cfg, s, step)[k].buy == f
  {
    hide Decide, InSession, Pending;
  }

  // ----- between a check and its commit -----

  lemma {:induction false} PledgeTotals(calls: seq<Call>, proposals: seq<Proposal>, out: set<nat>, id: nat, amount: Holding -> real)
    ensures Total(PledgeHoldings(calls, proposals, out + {id}), amount) == Total(PledgeHoldings(calls, proposals, out), amount) -
            (if id < |proposals| && id !in out then amount(PledgedAs(calls, proposals[id])) else 0.0)
  {
    hide PledgedAs;
    if proposals != [] {
      var last := |proposals| - 1;
      PledgeTotals(calls, proposals[..last], out, id, amount);
      Snoc(PledgeHoldings(calls, proposals[..last], out), PledgedAs(calls, proposals[last]));
      Snoc(PledgeHoldings(calls, proposals[..last], out + {id}), PledgedAs(calls, proposals[last]));
      assert id < last ==> proposals[..last][id] == proposals[id];
    }
  }

  /** What a book counts towards a cap when one more pending proposal is left out. */
  lemma TotalWithout(db: Db, id: nat, amount: Holding -> real)
    requires db.start.Some? && id in Committed(db)
    ensures Book(db, None).Ok? && Book(db, Some(id)).Ok?
    ensures Total(Book(db, Some(id)).value.holdings, amount) ==
            Total(Book(db, None).value.holdings, amount) - amount(PledgedAs(db.calls, db.proposals[id]))
  {
    hide PledgedAs, OpenPositions, PositionHoldings, PledgeHoldings, Total;
    var held := PositionHoldings(db.calls, db.marks, OpenPositions(db.proposals, db.fills));
    assert Settled(db) + Excluded(None) == Settled(db) && Settled(db) + Excluded(Some(id)) == Settled(db) + {id};
    PledgeTotals(db.calls, db.proposals, Settled(db), id, amount);
    TotalOfConcat(held, PledgeHoldings(db.calls, db.proposals, Settled(db)), amount);
    TotalOfConcat(held, PledgeHoldings(db.calls, db.proposals, Settled(db) + {id}), amount);
  }

  /** A holding of the same name and kind that counts no more. */
  ghost predicate Lighter(h: Holding, g: Holding) {
    && h.symbol == g.symbol && h.benchmark == g.benchmark && h.isOption == g.isOption
    && 0.0 <= h.marketValue <= g.marketValue && 0.0 <= h.premium <= g.premium
  }

  lemma PledgeIsNotNegative(db: Db, id: nat)
    requires RowsOk(db) && id < |db.proposals|
    ensures Lighter(PledgedAs(db.calls, db.proposals[id]), PledgedAs(db.calls, db.proposals[id]))
  {
    var p := db.proposals[id];
    assert ProposalOk(db, p);
    NotionalMonotone(0.0, p.maxEntry, p.quantity, p.instrument);
  }

  lemma WithoutScalars(db: Db, id: nat)
    requires RowsOk(db) && db.start.Some? && id in Committed(db)
    ensures Book(db, None).Ok? && Book(db, Some(id)).Ok?
    ensures var after, before := Book(db, Some(id)).value, Book(db, None).value;
            after.equity == before.equity && after.cash >= before.cash && |after.holdings| <= |before.holdings|
  {
    PledgeIsNotNegative(db, id);
    WorstIsPledged(db, id);
    EquityIgnoresCommitments(db, Some(id));
    EquityIgnoresCommitments(db, None);
    WithoutCount(db, id);
    hide RowsOk, Book, PledgedAs, Committed, Total, Worst, NetCash, Slots, CashFlow, OpenPositions;
  }

  lemma WithoutTotal(db: Db, id: nat, amount: Holding -> real)
    requires RowsOk(db) && db.start.Some? && id in Committed(db)
    requires forall h :: Lighter(h, h) ==> 0.0 <= amount(h)
    ensures Book(db, None).Ok? && Book(db, Some(id)).Ok?
    ensures Total(Book(db, Some(id)).value.holdings, amount) <= Total(Book(db, None).value.holdings, amount)
  {
    PledgeIsNotNegative(db, id);
    hide RowsOk, Book, PledgedAs, Committed, Total, Lighter;
    TotalWithout(db, id, amount);
  }

  /** The book without one pending proposal is no tighter. */
  lemma WithoutEases(db: Db, id: nat, o: Order, correlated: set<string>)
    requires RowsOk(db) && db.start.Some? && id in Committed(db)
    ensures Book(db, None).Ok? && Book(db, Some(id)).Ok?
    ensures Eases(Book(db, Some(id)).value, Book(db, None).value, o, correlated)
  {
    hide RowsOk, Book, Committed, Total;
    WithoutScalars(db, id);
    WithoutTotal(db, id, ValueIn(o.symbol));
    WithoutTotal(db, id, PremiumPaid());
    WithoutTotal(db, id, ValueInCluster(o.symbol, o.benchmark, correlated));
  }

  lemma WorstIsPledged(db: Db, id: nat)
    requires id < |db.proposals|
    ensures PledgedAs(db.calls, db.proposals[id]).marketValue == Worst(db.proposals[id])
  {
  }

  lemma WithoutCount(db: Db, id: nat)
    requires db.start.Some? && id in Committed(db)
    ensures Book(db, None).Ok? && Book(db, Some(id)).Ok?
    ensures |Book(db, Some(id)).value.holdings| == |Book(db, None).value.holdings| - 1
  {
    hide OpenPositions, PositionHoldings;
    assert Settled(db) + Excluded(None) == Settled(db) && Settled(db) + Excluded(Some(id)) == Settled(db) + {id};
    SettlingOne(db.proposals, Settled(db), id);
  }

  /** Closing a pending proposal without a fill leaves the book that had left it out. */
  lemma CloseIsWithout(db: Db, row: Outcome)
    requires db.start.Some?
    ensures Book(Apply(db, Close(row)), None) == Book(db, Some(row.proposal))
  {
    hide OpenPositions, PositionHoldings, PledgeHoldings, CashFlow, Commitment, Total, Done, Bought;
    DoneAfter(db.outcomes, row);
    assert Settled(Apply(db, Close(row))) + Excluded(None) == Settled(db) + Excluded(Some(row.proposal));
  }

  /** An entry whose symbol has no mark, at no more than its limit. */
  ghost predicate Unmarked(db: Db, buy: Fill, row: Outcome) {
    && CallsOk(db) && RowsOk(db) && FillsOk(db) && db.start.Some? && buy.proposal in Committed(db)
    && row.proposal == buy.proposal && IsTrade(buy, Buy, db.proposals[buy.proposal].quantity)
    && 0.0 < buy.price <= db.proposals[buy.proposal].maxEntry && db.proposals[buy.proposal].symbol !in db.marks
  }

  /** It becomes one holding, lighter than the pledge it was. */
  lemma UnmarkedIsLighter(db: Db, buy: Fill, row: Outcome)
    requires Unmarked(db, buy, row)
    ensures var id := buy.proposal;
            && id < |db.proposals| && db.proposals[id].callId < |db.calls|
            && Book(db, Some(id)).Ok? && Book(Apply(db, Enter(buy, row)), None).Ok?
            && var at := |OpenPositions(db.proposals[..id], db.fills)|;
               && Takes(Book(Apply(db, Enter(buy, row)), None).value, Book(db, Some(id)).value,
                        EntryOrder(db, id, buy.price), EntryOrder(db, id, buy.price).notional, at)
               && Lighter(Book(Apply(db, Enter(buy, row)), None).value.holdings[at], PledgedAs(db.calls, db.proposals[id]))
  {
    var id := buy.proposal;
    CommittedIsOpen(db, id);
    assert ProposalOk(db, db.proposals[id]);
    EntryIsTaken(db, buy, row);
    hide RowsOk, FillsOk, Book, PledgedAs, Committed, Apply, OpenPositions, EntryOrder, EntryWorth, Lighter, CallsOk,
      ProposalOk;
    var at := |OpenPositions(db.proposals[..id], db.fills)|;
    EnteredIsLighter(db, buy, Book(Apply(db, Enter(buy, row)), None).value.holdings[at], EntryOrder(db, id, buy.price));
  }

  lemma EntryScalars(db: Db, buy: Fill, row: Outcome)
    requires Unmarked(db, buy, row)
    ensures Book(db, None).Ok? && Book(Apply(db, Enter(buy, row)), None).Ok?
    ensures var before, after := Book(db, None).value, Book(Apply(db, Enter(buy, row)), None).value;
            after.equity == before.equity && after.cash >= before.cash && |after.holdings| == |before.holdings|
  {
    var id := buy.proposal;
    UnmarkedIsLighter(db, buy, row);
    EquityIgnoresCommitments(db, Some(id));
    EquityIgnoresCommitments(db, None);
    WithoutCount(db, id);
    WorstIsPledged(db, id);
    hide CallsOk, RowsOk, FillsOk, Book, PledgedAs, Committed, Total, Worst, Apply, OpenPositions, NetCash, Slots,
      CashFlow, EntryOrder;
  }

  lemma EntryTotal(db: Db, buy: Fill, row: Outcome, amount: Holding -> real)
    requires Unmarked(db, buy, row)
    requires forall h, g :: Lighter(h, g) ==> amount(h) <= amount(g)
    ensures Book(db, None).Ok? && Book(Apply(db, Enter(buy, row)), None).Ok?
    ensures Total(Book(Apply(db, Enter(buy, row)), None).value.holdings, amount) <= Total(Book(db, None).value.holdings, amount)
  {
    UnmarkedIsLighter(db, buy, row);
    hide CallsOk, RowsOk, FillsOk, Book, PledgedAs, Committed, Total, Worst, Apply, OpenPositions, EntryOrder, Lighter;
    var id := buy.proposal;
    Swapped(db, id, Book(db, Some(id)).value, Book(Apply(db, Enter(buy, row)), None).value,
            |OpenPositions(db.proposals[..id], db.fills)|, amount);
  }

  /** Entering a proposal whose symbol has no mark leaves a book no tighter than the one that carried its worst case. */
  lemma EntryEases(db: Db, buy: Fill, row: Outcome, o: Order, correlated: set<string>)
    requires Unmarked(db, buy, row)
    ensures Book(db, None).Ok? && Book(Apply(db, Enter(buy, row)), None).Ok?
    ensures Eases(Book(Apply(db, Enter(buy, row)), None).value, Book(db, None).value, o, correlated)
  {
    hide Unmarked, Book, Apply, Total;
    EntryScalars(db, buy, row);
    EntryTotal(db, buy, row, ValueIn(o.symbol));
    EntryTotal(db, buy, row, PremiumPaid());
    EntryTotal(db, buy, row, ValueInCluster(o.symbol, o.benchmark, correlated));
  }

  lemma Swapped(db: Db, id: nat, without: BookState, after: BookState, at: nat, amount: Holding -> real)
    requires db.start.Some? && id in Committed(db) && Book(db, Some(id)) == Ok(without) && at <= |without.holdings|
    requires at < |after.holdings| && after.holdings == without.holdings[..at] + [after.holdings[at]] + without.holdings[at..]
    ensures Book(db, None).Ok?
    ensures Total(after.holdings, amount) ==
            Total(Book(db, None).value.holdings, amount) - amount(PledgedAs(db.calls, db.proposals[id]))
            + amount(after.holdings[at])
  {
    hide Book, Total, Committed;
    TotalWithout(db, id, amount);
    TotalOfInsert(without.holdings, after.holdings[at], at, amount);
  }

  lemma EnteredIsLighter(db: Db, buy: Fill, h: Holding, o: Order)
    requires CallsOk(db) && buy.proposal < |db.proposals| && ProposalOk(db, db.proposals[buy.proposal])
    requires 0.0 < buy.price <= db.proposals[buy.proposal].maxEntry && db.proposals[buy.proposal].symbol !in db.marks
    requires o == EntryOrder(db, buy.proposal, buy.price)
    requires h.symbol == o.symbol && h.benchmark == o.benchmark && h.isOption == o.isOption
    requires h.marketValue == EntryWorth(db, buy) && h.premium == if o.isOption then o.notional else 0.0
    ensures Lighter(h, PledgedAs(db.calls, db.proposals[buy.proposal])) && EntryWorth(db, buy) == o.notional
  {
    hide Notional, CurrentCall;
    var p := db.proposals[buy.proposal];
    CurrentIsCallOrItsExtension(db.calls, p.callId);
    NotionalMonotone(0.0, buy.price, p.quantity, p.instrument);
    NotionalMonotone(buy.price, p.maxEntry, p.quantity, p.instrument);
    NothingIsFree(p.quantity, p.instrument);
  }

  lemma NothingIsFree(quantity: int, i: Instrument)
    ensures Notional(0.0, quantity, i) == 0.0
  {
  }

  /** Steps that cannot take a checked order over a cap: they write no mark, and what they fill had none. */
  ghost predicate SafeStep(s: State, step: Step) {
    || step.PostStep? || step.ExpireStep? || step.ScoreStep?
    || (step.EntryStep? && step.id < |s.db.proposals| && s.db.proposals[step.id].symbol !in s.db.marks)
    || (step.ExitStep? && NoFreshQuotes(step.exit, step.now))
  }

  predicate NoFreshQuotes(e: ExitInput, now: Time) {
    e.underlying.None? || e.own.None? || Stale(e.underlying.value, now) || Stale(e.own.value, now)
  }

  lemma SameBook(a: Db, b: Db)
    requires a.start == b.start && a.calls == b.calls && a.marks == b.marks && a.proposals == b.proposals
    requires a.fills == b.fills && a.outcomes == b.outcomes
    ensures Book(a, None) == Book(b, None)
  {
    assert Settled(a) == Settled(b);
  }

  lemma EasesItself(book: BookState, o: Order, correlated: set<string>)
    ensures Eases(book, book, o, correlated)
  {
  }

  lemma ClosingEases(db: Db, row: Outcome, o: Order, correlated: set<string>)
    requires RowsOk(db) && db.start.Some? && row.proposal in Committed(db)
    ensures Book(db, None).Ok? && Book(Apply(db, Close(row)), None).Ok?
    ensures Eases(Book(Apply(db, Close(row)), None).value, Book(db, None).value, o, correlated)
  {
    hide Book, Apply, RowsOk, Committed, Eases;
    CloseIsWithout(db, row);
    WithoutEases(db, row.proposal, o, correlated);
  }

  predicate SafeWrite(db: Db, w: Write) {
    || w.MarkPosted? || w.Close? || w.Resolve?
    || (w.Enter? && w.buy.proposal < |db.proposals| && db.proposals[w.buy.proposal].symbol !in db.marks)
  }

  /** One write of a safe step. */
  lemma SafeWriteEases(cfg: Config, db: Db, now: Time, w: Write, o: Order, correlated: set<string>)
    requires CallsOk(db) && RowsOk(db) && FillsOk(db) && db.start.Some? && Justified(cfg, db, now, w)
    requires SafeWrite(db, w)
    ensures Book(db, None).Ok? && Book(Apply(db, w), None).Ok?
    ensures Eases(Book(Apply(db, w), None).value, Book(db, None).value, o, correlated) && Apply(db, w).start == db.start
  {
    hide CallsOk, RowsOk, FillsOk, Book, Committed, Eases, NetCash, Slots, CarriesStop, VetoDeadline, ApprovedEntry, Total,
      PositionHoldings, PledgeHoldings, OpenPositions, Settled, FillsOf, EffectiveInvalidation, ExtensionOf, Worst;
    StartedBookIsOk(db);
    match w
    case Close(row) => ClosingEases(db, row, o, correlated);
    case Enter(buy, row) =>
      assert Unmarked(db, buy, row);
      EntryEases(db, buy, row, o, correlated);
    case MarkPosted(_, _) =>
      SameBook(db, Apply(db, w));
      EasesItself(Book(db, None).value, o, correlated);
    case Resolve(_, _) =>
      SameBook(db, Apply(db, w));
      EasesItself(Book(db, None).value, o, correlated);
  }

  /** A safe step writes nothing, or one such write. */
  lemma SafeStepWrites(cfg: Config, s: State, step: Step)
    requires SaneRules(cfg.rules) && Good(cfg, s) && Enabled(cfg, s, step) && SafeStep(s, step)
    ensures var ws := Writes(cfg, s, step);
            ws == [] || (|ws| == 1 && Justified(cfg, s.db, step.now, ws[0]) && SafeWrite(s.db, ws[0]))
  {
    hide CallsOk, RowsOk, LifeOk, MoneyOk, PledgeOk, EntryWrites, PostWrite, ExitHit, InSession, Stale;
    match step
    case PostStep(id, message, window, now) =>
      PostIsJustified(cfg, s, id, message, window, now);
      PostWriteKinds(cfg, s.db, id, message, window, now);
    case EntryStep(id, e, _, now) =>
      EntryIsJustified(cfg, s, id, e, now);
      EntryNamesItsRow(cfg, s.db, id, e, now);
    case ExpireStep(_, _) =>
    case ScoreStep(_, _, _) =>
    case ExitStep(_, _, _, _) =>
  }

  lemma PostWriteKinds(cfg: Config, db: Db, id: nat, message: Option<string>, window: Option<Window>, now: Time)
    requires id < |db.proposals|
    ensures var w := PostWrite(db, cfg, id, message, window, now); w.MarkPosted? || w.Close?
  {
  }

  lemma SafeStepEases(cfg: Config, s: State, step: Step, s': State, o: Order, correlated: set<string>)
    requires SaneRules(cfg.rules) && Good(cfg, s) && s.db.start.Some? && Next(cfg, s, step, s') && SafeStep(s, step)
    ensures Book(s.db, None).Ok? && Book(s'.db, None).Ok?
    ensures Eases(Book(s'.db, None).value, Book(s.db, None).value, o, correlated)
    ensures s'.pledge == s.pledge && s'.db.start == s.db.start
  {
    hide CallsOk, RowsOk, FillsOk, LifeOk, MoneyOk, PledgeOk, Book, Writes, Justified, Eases, Enabled, SafeStep,
      Apply, PledgeAfter, SaneRules;
    SafeStepWrites(cfg, s, step);
    SafeStepKeepsPledge(cfg, s, step);
    var ws := Writes(cfg, s, step);
    if ws == [] {
      StartedBookIsOk(s.db);
      EasesItself(Book(s.db, None).value, o, correlated);
    } else {
      assert ws == [ws[0]];
      ApplyOne(s.db, ws[0]);
      SafeWriteEases(cfg, s.db, step.now, ws[0], o, correlated);
    }
  }

  lemma SafeStepKeepsPledge(cfg: Config, s: State, step: Step)
    requires Enabled(cfg, s, step) && SafeStep(s, step)
    ensures PledgeAfter(cfg, s, step) == s.pledge
  {
  }

  lemma StartedBookIsOk(db: Db)
    requires db.start.Some?
    ensures Book(db, None).Ok?
  {
  }

  ghost predicate SafePath(cfg: Config, steps: seq<Step>, states: seq<State>) {
    Path(cfg, steps, states) && forall k :: 0 <= k < |steps| ==> SafeStep(states[k], steps[k])
  }

  /** An order the check passed still passes after any number of safe steps, and the pledge is still there. */
  lemma {:induction false} SafePathKeepsTheCheck(
      cfg: Config, steps: seq<Step>, states: seq<State>, n: nat, o: Order, correlated: set<string>)
    requires SaneRules(cfg.rules) && SafePath(cfg, steps, states) && n <= |steps|
    requires Good(cfg, states[0]) && states[0].db.start.Some? && Book(states[0].db, None).Ok?
    requires CheckBook(Book(states[0].db, None).value, o, correlated, cfg.rules, cfg.reserve).Ok?
    ensures Good(cfg, states[n]) && states[n].db.start.Some? && states[n].pledge == states[0].pledge
    ensures Book(states[n].db, None).Ok?
    ensures CheckBook(Book(states[n].db, None).value, o, correlated, cfg.rules, cfg.reserve).Ok?
  {
    hide Good, Next, SafeStep, Book, CheckBook, Eases;
    if n > 0 {
      SafePathKeepsTheCheck(cfg, steps, states, n - 1, o, correlated);
      assert Next(cfg, states[n - 1], steps[n - 1], states[n]);
      StepKeepsGood(cfg, states[n - 1], steps[n - 1], states[n]);
      SafeStepEases(cfg, states[n - 1], steps[n - 1], states[n], o, correlated);
      EasedBookPasses(Book(states[n - 1].db, None).value, Book(states[n].db, None).value, o, correlated, cfg.rules, cfg.reserve);
    }
  }

  /** A funded call, with any safe steps between its check and its commit, leaves a book within every cap against its own
      equity. */
  lemma FundedCallLeavesCapsMet(
      cfg: Config, s: State, cin: CallIn, pin: PmInput, now: Time, steps: seq<Step>, states: seq<State>, later: Time, s2: State)
    requires SaneRules(cfg.rules) && Good(cfg, s) && SafePath(cfg, steps, states)
    requires Next(cfg, s, Check(cin, pin, now), states[0]) && states[0].pledge.Some? && states[0].pledge.value.plan.Some?
    requires Next(cfg, states[|steps|], Commit(later), s2)
    ensures Book(s.db, None).Ok? && Book(states[|steps|].db, None).Ok? && Book(s2.db, None).Ok?
    ensures Book(s2.db, None).value.equity == Book(states[|steps|].db, None).value.equity
    ensures WithinCaps(Book(s2.db, None).value, PledgeOrder(states[0].pledge.value),
                       CorrelatedWith(Book(s.db, None).value, cin.symbol, pin.measured, cfg.rules), cfg.rules, cfg.reserve)
  {
    var first, last := states[0], states[|steps|];
    FundedPledgePassed(cfg, s.db, cin, pin, now);
    assert first.db == s.db;
    StepKeepsGood(cfg, s, Check(cin, pin, now), first);
    hide CallsOk, LifeOk, MoneyOk, PledgeOk, Book, Submit, CheckBook, WithinCaps, CorrelatedWith, SafePath,
      CommitWrites, RowsOk, FillsOk;
    var p := first.pledge.value;
    var correlated := CorrelatedWith(Book(s.db, None).value, cin.symbol, pin.measured, cfg.rules);
    assert PlanOrder(cin, p.plan.value) == PledgeOrder(p);
    SafePathKeepsTheCheck(cfg, steps, states, |steps|, PledgeOrder(p), correlated);
    CommitMeetsCapsExactly(cfg, last.db, p, correlated);
  }
}
