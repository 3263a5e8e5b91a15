/** What every table write keeps, given the facts its operation has checked. */
module DeskInvariant {
  import opened Basics
  import opened Clock
  import opened Calls
  import opened Sizing
  import opened Ledger
  import opened Desk

  // ----- the invariant -----

  /** An extension keeps the name, the direction and the benchmark. */
  predicate Continues(c: Call, prior: Call) {
    c.symbol == prior.symbol && c.direction == prior.direction && c.benchmark == prior.benchmark
  }

  ghost predicate CallsOk(db: Db) {
    && OneExtensionEach(db.calls)
    && (forall i :: 0 <= i < |db.calls| ==> LevelsStand(db.calls[i]))
    && (forall i :: 0 <= i < |db.calls| && db.calls[i].parent.Some? ==> Continues(db.calls[i], db.calls[db.calls[i].parent.value]))
    && (forall t :: t in db.tightenings ==> t.callId < |db.calls| && 0.0 < t.invalidation)
  }

  ghost predicate ProposalOk(db: Db, p: Proposal) {
    && p.callId < |db.calls|
    && 0 < p.quantity && 0.0 < p.maxEntry
    && (p.instrument.Shares? ==> db.calls[p.callId].direction.Up?)
  }

  /** Rows reference rows that exist, and no proposal has two outcomes. */
  ghost predicate RowsOk(db: Db) {
    && (forall i :: 0 <= i < |db.proposals| ==> ProposalOk(db, db.proposals[i]))
    && (forall f :: f in db.fills ==> f.proposal < |db.proposals|)
    && (forall o :: o in db.outcomes ==> o.proposal < |db.proposals|)
    && (forall i, j :: 0 <= i < j < |db.outcomes| ==> db.outcomes[i].proposal != db.outcomes[j].proposal)
    && (forall id :: id in db.postings ==> id < |db.proposals|)
    && (db.start.None? ==> db.proposals == [] && db.fills == [] && db.outcomes == [])
  }

  ghost predicate IsTrade(f: Fill, side: Side, quantity: int) { f.side == side && f.quantity == quantity }

  /** A proposal's fills: none, one buy, or one buy and one equal sell. */
  ghost predicate FillShape(fs: seq<Fill>, quantity: int) {
    || fs == []
    || (|fs| == 1 && IsTrade(fs[0], Buy, quantity))
    || (|fs| == 2 && IsTrade(fs[0], Buy, quantity) && IsTrade(fs[1], Sell, quantity))
  }

  ghost predicate FillsOk(db: Db) {
    && (forall id :: 0 <= id < |db.proposals| ==> FillShape(FillsOf(db.fills, id), db.proposals[id].quantity))
    && (forall o :: o in db.outcomes ==> (o.kind.Filled? <==> o.proposal in Bought(db.fills)))
    && Bought(db.fills) <= Done(db.outcomes)
  }

  ghost predicate ApprovedEntry(db: Db, id: nat) {
    exists o :: o in db.outcomes && o.proposal == id && o.kind.Filled? && o.approved
  }

  /** The stop an entry carries: both prices for shares, none for an option. */
  ghost predicate CarriesStop(cfg: Config, i: Instrument, f: Fill) {
    if i.Shares? then
      && f.stopTrigger.Some? && f.stopLimit == Some(LimitBelow(f.stopTrigger.value, cfg.rules))
      && 0.0 < f.stopTrigger.value && f.stopLimit.value < f.stopTrigger.value < f.price
      && f.price - f.stopTrigger.value <= f.price * cfg.rules.stopMaxPct / 100.0 + 0.005
    else f.stopTrigger.None? && f.stopLimit.None?
  }

  /** Everything an entry fill owes its proposal. */
  ghost predicate GoodEntry(cfg: Config, db: Db, f: Fill) {
    && f.proposal < |db.proposals| && f.proposal in db.postings
    && var p, post := db.proposals[f.proposal], db.postings[f.proposal];
       && 0.0 < f.price <= p.maxEntry
       && post.message.Some? && post.at <= f.at
       && Day(f.at) == Day(post.at) == Day(p.createdAt)
       && TimeOfDay(f.at) < ENTRY_CUTOFF
       && (post.deadline <= f.at || ApprovedEntry(db, f.proposal))
       && CarriesStop(cfg, p.instrument, f)
  }

  /** A posting carries its message and the veto deadline of its moment, on the day its proposal was made. */
  ghost predicate PostingOk(cfg: Config, p: Proposal, posting: Posting, clock: Time) {
    && posting.at <= clock && posting.message.Some?
    && posting.deadline == VetoDeadline(cfg, posting.at)
    && Day(posting.at) == Day(p.createdAt)
  }

  ghost predicate LifeOk(cfg: Config, db: Db, clock: Time) {
    && (forall i :: 0 <= i < |db.proposals| ==> db.proposals[i].createdAt <= clock)
    && (forall id :: id in db.postings && id < |db.proposals| ==> PostingOk(cfg, db.proposals[id], db.postings[id], clock))
    && (forall f :: f in db.fills && f.side.Buy? ==> GoodEntry(cfg, db, f))
  }

  function MaxSlots(cfg: Config): int { if cfg.rules.maxFundedPositions < 0 then 0 else cfg.rules.maxFundedPositions }

  ghost predicate MoneyOk(cfg: Config, db: Db) {
    && (db.start.Some? ==> NetCash(db) >= Min(db.start.value, cfg.reserve))
    && Slots(db) <= MaxSlots(cfg)
  }

  /** A checked call that has not been written yet still has its money and its place. */
  ghost predicate PledgeOk(cfg: Config, db: Db, clock: Time, p: Pledge) {
    && p.call.parent.None? && LevelsStand(p.call) && p.at <= clock
    && (p.plan.Some? ==>
          && 0 < p.plan.value.quantity && 0.0 < p.plan.value.maxEntry
          && (p.plan.value.instrument.Shares? ==> p.call.direction.Up?)
          && db.start.Some? && NetCash(db) - PlanCost(p.plan.value) >= cfg.reserve
          && Slots(db) < cfg.rules.maxFundedPositions)
  }

  ghost predicate Inv(cfg: Config, db: Db, pledge: Option<Pledge>, clock: Time) {
    && CallsOk(db) && RowsOk(db) && FillsOk(db) && LifeOk(cfg, db, clock) && MoneyOk(cfg, db)
    && (pledge.Some? ==> PledgeOk(cfg, db, clock, pledge.value))
  }

  // ----- what an operation has checked before it writes -----

  ghost predicate Justified(cfg: Config, db: Db, now: Time, w: Write) {
    Insertable(db, w) &&
    match w
    case StartBook(_) => true
    case AddCall(c) =>
      && LevelsStand(c)
      && (c.parent.Some? ==>
            && db.calls[c.parent.value].parent.None? && ExtensionOf(db.calls, c.parent.value).None?
            && Continues(c, db.calls[c.parent.value]))
    case AddProposal(p) =>
      && ProposalOk(db, p) && p.createdAt <= now
      && db.start.Some? && NetCash(db) - Worst(p) >= cfg.reserve && Slots(db) < cfg.rules.maxFundedPositions
    case MarkPosted(id, posting) =>
      && id < |db.proposals| && id !in db.postings
      && posting.at == now && posting.deadline == VetoDeadline(cfg, now) && posting.message.Some?
      && Day(db.proposals[id].createdAt) == Day(now)
    case Close(row) => row.proposal in Committed(db) && !row.kind.Filled?
    case Enter(buy, row) =>
      && buy.proposal in Committed(db) && row.proposal == buy.proposal && row.kind.Filled?
      && IsTrade(buy, Buy, db.proposals[buy.proposal].quantity)
      && GoodEntry(cfg, Apply(db, w), buy)
    case Leave(sale) =>
      && sale.side.Sell? && 0.0 <= sale.price && sale.proposal < |db.proposals|
      && |FillsOf(db.fills, sale.proposal)| == 1
      && sale.quantity == db.proposals[sale.proposal].quantity
    case MarkPrice(_, _) => true
    case Tighten(t) =>
      && t.callId < |db.calls| && 0.0 < t.invalidation
      && var level := EffectiveInvalidation(db.calls, db.tightenings, t.callId);
         if db.calls[t.callId].direction.Up? then level < t.invalidation else t.invalidation < level
    case Resolve(id, _) => id < |db.calls|
  }

  // ----- each part is kept -----

  lemma KeepsCallsOk(cfg: Config, db: Db, now: Time, w: Write)
    requires CallsOk(db) && Justified(cfg, db, now, w)
    ensures CallsOk(Apply(db, w))
  {
    hide GoodEntry, NetCash, Slots, Worst, FillsOf, EffectiveInvalidation, Committed, VetoDeadline, LevelsStand,
      Continues;
    if w.AddCall? {
      AppendKeepsOneExtension(db.calls, w.call);
    }
  }

  lemma CommittedIsOpen(db: Db, id: nat)
    requires RowsOk(db) && FillsOk(db) && id in Committed(db)
    ensures id < |db.proposals| && id !in Done(db.outcomes) && id !in Bought(db.fills)
    ensures FillsOf(db.fills, id) == []
    ensures forall o :: o in db.outcomes ==> o.proposal != id
  {
    BoughtHasFills(db.fills, id);
    assert FillShape(FillsOf(db.fills, id), db.proposals[id].quantity);
    if FillsOf(db.fills, id) != [] {
      assert FillsOf(db.fills, id)[0] in FillsOf(db.fills, id);
    }
  }

  lemma OutcomeKeepsRowsOk(db: Db, row: Outcome)
    requires RowsOk(db) && db.start.Some? && row.proposal < |db.proposals|
    requires forall o :: o in db.outcomes ==> o.proposal != row.proposal
    ensures RowsOk(db.(outcomes := db.outcomes + [row]))
  {
  }

  lemma KeepsRowsOk(cfg: Config, db: Db, now: Time, w: Write)
    requires RowsOk(db) && FillsOk(db) && Justified(cfg, db, now, w)
    ensures RowsOk(Apply(db, w))
  {
    hide FillsOk, GoodEntry, NetCash, Slots, Worst, FillsOf, EffectiveInvalidation, ExtensionOf, Committed;
    match w
    case Close(row) =>
      CommittedIsOpen(db, row.proposal);
      OutcomeKeepsRowsOk(db, row);
    case Enter(buy, row) =>
      CommittedIsOpen(db, buy.proposal);
      OutcomeKeepsRowsOk(db, row);
    case _ =>
  }

  lemma KeepsFillsOk(cfg: Config, db: Db, now: Time, w: Write)
    requires RowsOk(db) && FillsOk(db) && Justified(cfg, db, now, w)
    ensures FillsOk(Apply(db, w))
  {
    hide GoodEntry, NetCash, Slots, Worst, EffectiveInvalidation, ExtensionOf;
    match w
    case AddProposal(p) =>
      FillsOfUnknown(db.proposals, db.fills, |db.proposals|);
    case Close(row) =>
      CommittedIsOpen(db, row.proposal);
      DoneAfter(db.outcomes, row);
    case Enter(buy, row) =>
      EnterKeepsFillsOk(db, buy, row);
    case Leave(sale) =>
      LeaveKeepsFillsOk(db, sale);
    case _ =>
  }

  lemma EnterKeepsShapes(db: Db, buy: Fill)
    requires FillsOk(db) && buy.proposal < |db.proposals| && FillsOf(db.fills, buy.proposal) == []
    requires IsTrade(buy, Buy, db.proposals[buy.proposal].quantity)
    ensures forall id :: 0 <= id < |db.proposals| ==> FillShape(FillsOf(db.fills + [buy], id), db.proposals[id].quantity)
  {
    forall id | 0 <= id < |db.proposals| ensures FillShape(FillsOf(db.fills + [buy], id), db.proposals[id].quantity) {
      FillsAfter(db.fills, buy, id);
      assert FillShape(FillsOf(db.fills, id), db.proposals[id].quantity);
    }
  }

  lemma EnterKeepsFillsOk(db: Db, buy: Fill, row: Outcome)
    requires RowsOk(db) && FillsOk(db) && buy.proposal in Committed(db)
    requires row.proposal == buy.proposal && row.kind.Filled? && IsTrade(buy, Buy, db.proposals[buy.proposal].quantity)
    ensures FillsOk(Apply(db, Enter(buy, row)))
  {
    hide FillsOf, ProposalOk;
    CommittedIsOpen(db, buy.proposal);
    EnterKeepsShapes(db, buy);
    DoneAfter(db.outcomes, row);
    BoughtAfter(db.fills, buy);
  }

  lemma LeaveKeepsFillsOk(db: Db, sale: Fill)
    requires RowsOk(db) && FillsOk(db) && sale.side.Sell? && sale.proposal < |db.proposals|
    requires |FillsOf(db.fills, sale.proposal)| == 1 && sale.quantity == db.proposals[sale.proposal].quantity
    ensures FillsOk(Apply(db, Leave(sale)))
  {
    BoughtAfter(db.fills, sale);
    forall id | 0 <= id < |db.proposals| ensures FillShape(FillsOf(db.fills + [sale], id), db.proposals[id].quantity) {
      FillsAfter(db.fills, sale, id);
      assert FillShape(FillsOf(db.fills, id), db.proposals[id].quantity);
    }
  }

  lemma EntriesSurvive(cfg: Config, db: Db, after: Db)
    requires forall f :: f in db.fills && f.side.Buy? ==> GoodEntry(cfg, db, f)
    requires db.proposals <= after.proposals
    requires forall id :: id in db.postings ==> id in after.postings && after.postings[id] == db.postings[id]
    requires forall o :: o in db.outcomes ==> o in after.outcomes
    ensures forall f :: f in db.fills && f.side.Buy? ==> GoodEntry(cfg, after, f)
  {
    forall f | f in db.fills && f.side.Buy? ensures GoodEntry(cfg, after, f) {
      assert GoodEntry(cfg, db, f);
      if ApprovedEntry(db, f.proposal) {
        var o :| o in db.outcomes && o.proposal == f.proposal && o.kind.Filled? && o.approved;
        assert o in after.outcomes;
      }
    }
  }

  lemma KeepsLifeOk(cfg: Config, db: Db, clock: Time, now: Time, w: Write)
    requires RowsOk(db) && LifeOk(cfg, db, clock) && clock <= now && Justified(cfg, db, now, w)
    ensures LifeOk(cfg, Apply(db, w), now)
  {
    hide NetCash, Slots, Worst, FillsOf, EffectiveInvalidation, ExtensionOf, CarriesStop, Committed, VetoDeadline, LevelsStand,
      Continues, ProposalOk;
    EntriesSurvive(cfg, db, Apply(db, w));
  }

  // ----- money -----

  /** What a write does to cash net of commitments. */
  function Gain(db: Db, w: Write): real {
    match w
    case AddProposal(p) => -Worst(p)
    case Close(row) => if row.proposal < |db.proposals| then Worst(db.proposals[row.proposal]) else 0.0
    case Enter(buy, _) =>
      if buy.proposal < |db.proposals| then
        Worst(db.proposals[buy.proposal]) - Notional(buy.price, buy.quantity, db.proposals[buy.proposal].instrument)
      else 0.0
    case Leave(sale) => Flow(db.proposals, sale)
    case _ => 0.0
  }

  /** What a write does to the number of positions and pending proposals. */
  function SlotChange(w: Write): int {
    match w
    case AddProposal(_) => 1
    case Close(_) => -1
    case Leave(_) => -1
    case _ => 0
  }

  lemma {:induction false} CashFlowIgnoresNewProposal(proposals: seq<Proposal>, p: Proposal, fills: seq<Fill>)
    requires forall f :: f in fills ==> f.proposal < |proposals|
    ensures CashFlow(proposals + [p], fills) == CashFlow(proposals, fills)
  {
    if fills != [] {
      assert fills[|fills| - 1] in fills;
      CashFlowIgnoresNewProposal(proposals, p, fills[..|fills| - 1]);
    }
  }

  lemma NewProposalMoney(db: Db, p: Proposal)
    requires RowsOk(db) && db.start.Some?
    ensures NetCash(db.(proposals := db.proposals + [p])) == NetCash(db) - Worst(p)
    ensures OpenPositions(db.proposals + [p], db.fills) == OpenPositions(db.proposals, db.fills)
    ensures Committed(db.(proposals := db.proposals + [p])) == Committed(db) + [|db.proposals|]
  {
    var n := |db.proposals|;
    CashFlowIgnoresNewProposal(db.proposals, p, db.fills);
    Snoc(db.proposals, p);
    FillsOfUnknown(db.proposals, db.fills, n);
    assert n !in Settled(db);
  }

  lemma SettledAfterEnter(db: Db, buy: Fill, row: Outcome)
    requires buy.side.Buy? && row.proposal == buy.proposal
    ensures Settled(Apply(db, Enter(buy, row))) == Settled(db) + {buy.proposal}
  {
    DoneAfter(db.outcomes, row);
    BoughtAfter(db.fills, buy);
  }

  lemma EnterNetCash(db: Db, buy: Fill, row: Outcome)
    requires RowsOk(db) && FillsOk(db) && db.start.Some? && buy.proposal in Committed(db)
    requires row.proposal == buy.proposal && buy.side.Buy?
    ensures NetCash(Apply(db, Enter(buy, row))) == NetCash(db) + Gain(db, Enter(buy, row))
    ensures |Committed(Apply(db, Enter(buy, row)))| == |Committed(db)| - 1
  {
    hide Notional, Done, Bought, RowsOk, FillsOk;
    CommittedIsOpen(db, buy.proposal);
    SettledAfterEnter(db, buy, row);
    SettlingOne(db.proposals, Settled(db), buy.proposal);
    CashFlowAfter(db.proposals, db.fills, buy);
  }

  lemma EnterPositions(db: Db, buy: Fill)
    requires RowsOk(db) && FillsOk(db) && buy.proposal in Committed(db)
    requires IsTrade(buy, Buy, db.proposals[buy.proposal].quantity)
    ensures |OpenPositions(db.proposals, db.fills + [buy])| == |OpenPositions(db.proposals, db.fills)| + 1
  {
    var id := buy.proposal;
    CommittedIsOpen(db, id);
    FillsChangeOne(db, buy);
    FillsAfter(db.fills, buy, id);
    assert FillsOf(db.fills + [buy], id) == [buy];
    PositionsChangeOne(db.proposals, db.fills, db.fills + [buy], id);
    OneBuyIsOnePosition(id, db.proposals[id], buy);
  }

  lemma FillsChangeOne(db: Db, f: Fill)
    ensures forall i :: 0 <= i < |db.proposals| && i != f.proposal ==> FillsOf(db.fills, i) == FillsOf(db.fills + [f], i)
  {
    forall i | 0 <= i < |db.proposals| && i != f.proposal ensures FillsOf(db.fills, i) == FillsOf(db.fills + [f], i) {
      FillsAfter(db.fills, f, i);
    }
  }

  lemma LeaveMoney(db: Db, sale: Fill)
    requires RowsOk(db) && FillsOk(db) && db.start.Some? && sale.side.Sell? && sale.proposal < |db.proposals|
    requires |FillsOf(db.fills, sale.proposal)| == 1 && sale.quantity == db.proposals[sale.proposal].quantity
    ensures NetCash(Apply(db, Leave(sale))) == NetCash(db) + Gain(db, Leave(sale))
    ensures Slots(Apply(db, Leave(sale))) == Slots(db) - 1
  {
    hide Notional, Done;
    var id := sale.proposal;
    var p := db.proposals[id];
    var fs := FillsOf(db.fills, id);
    assert FillShape(fs, p.quantity);
    BoughtAfter(db.fills, sale);
    assert Settled(Apply(db, Leave(sale))) == Settled(db);
    CashFlowAfter(db.proposals, db.fills, sale);
    FillsChangeOne(db, sale);
    FillsAfter(db.fills, sale, id);
    PositionsChangeOne(db.proposals, db.fills, db.fills + [sale], id);
    OneBuyIsOnePosition(id, p, fs[0]);
    BoughtAndSoldIsFlat(id, p, fs[0], sale);
    assert fs == [fs[0]] && fs + [sale] == [fs[0], sale];
  }

  lemma QuantityAfter(fs: seq<Fill>, f: Fill, side: Side)
    ensures Quantity(fs + [f], side) == Quantity(fs, side) + (if f.side == side then f.quantity else 0)
  {
    Snoc(fs, f);
  }

  lemma OneBuyIsOnePosition(id: nat, p: Proposal, b: Fill)
    requires IsTrade(b, Buy, p.quantity) && 0 < p.quantity
    ensures PositionsOf(id, p, [b]) ==
            [Position(id, p.callId, p.instrument, p.symbol, p.underlying, p.quantity, b.price, b.at, b.stopTrigger, b.stopLimit)]
  {
    assert [] + [b] == [b];
    QuantityAfter([], b, Sell);
    assert OpenBuys(id, p, [], 0) == [];
  }

  lemma BoughtAndSoldIsFlat(id: nat, p: Proposal, b: Fill, s: Fill)
    requires IsTrade(b, Buy, p.quantity) && IsTrade(s, Sell, p.quantity)
    ensures PositionsOf(id, p, [b, s]) == []
    ensures Quantity([b, s], Buy) == Quantity([b, s], Sell) == p.quantity
  {
    assert [] + [b] == [b] && [b] + [s] == [b, s];
    QuantityAfter([], b, Sell);
    QuantityAfter([b], s, Sell);
    QuantityAfter([], b, Buy);
    QuantityAfter([b], s, Buy);
    assert OpenBuys(id, p, [b], p.quantity) == [];
  }

  /** The exact effect of every justified write on net cash and on slots. */
  lemma WriteMoney(cfg: Config, db: Db, now: Time, w: Write)
    requires RowsOk(db) && FillsOk(db) && db.start.Some? && Justified(cfg, db, now, w)
    ensures NetCash(Apply(db, w)) == NetCash(db) + Gain(db, w)
    ensures Slots(Apply(db, w)) == Slots(db) + SlotChange(w)
  {
    hide Notional, GoodEntry, EffectiveInvalidation, ExtensionOf, Done, Bought, FillsOf;
    match w
    case AddProposal(p) => NewProposalMoney(db, p);
    case Close(row) =>
      CommittedIsOpen(db, row.proposal);
      DoneAfter(db.outcomes, row);
      assert Settled(Apply(db, w)) == Settled(db) + {row.proposal};
      SettlingOne(db.proposals, Settled(db), row.proposal);
    case Enter(buy, row) =>
      EnterNetCash(db, buy, row);
      EnterPositions(db, buy);
    case Leave(sale) => LeaveMoney(db, sale);
    case _ =>
  }

  /** Only funding takes money: every other justified write leaves net cash at least as high and no more slots taken. */
  lemma OnlyFundingTakesMoney(cfg: Config, db: Db, now: Time, w: Write)
    requires RowsOk(db) && FillsOk(db) && db.start.Some? && Justified(cfg, db, now, w) && !w.AddProposal?
    ensures NetCash(Apply(db, w)) >= NetCash(db) && Slots(Apply(db, w)) <= Slots(db)
  {
    WriteMoney(cfg, db, now, w);
    match w
    case Close(row) =>
      var p := db.proposals[row.proposal];
      NotionalMonotone(0.0, p.maxEntry, p.quantity, p.instrument);
    case Enter(buy, row) =>
      var p := db.proposals[buy.proposal];
      NotionalMonotone(buy.price, p.maxEntry, p.quantity, p.instrument);
    case Leave(sale) =>
      NotionalMonotone(0.0, sale.price, sale.quantity, db.proposals[sale.proposal].instrument);
    case _ =>
  }

  lemma KeepsMoneyOk(cfg: Config, db: Db, now: Time, w: Write)
    requires RowsOk(db) && FillsOk(db) && MoneyOk(cfg, db) && Justified(cfg, db, now, w)
    ensures MoneyOk(cfg, Apply(db, w))
  {
    if db.start.Some? {
      WriteMoney(cfg, db, now, w);
      if !w.AddProposal? {
        OnlyFundingTakesMoney(cfg, db, now, w);
      }
    }
  }

  lemma KeepsPledgeOk(cfg: Config, db: Db, pledge: Pledge, clock: Time, now: Time, w: Write)
    requires RowsOk(db) && FillsOk(db) && clock <= now && Justified(cfg, db, now, w) && !w.AddProposal?
    requires PledgeOk(cfg, db, clock, pledge)
    ensures PledgeOk(cfg, Apply(db, w), now, pledge)
  {
    if pledge.plan.Some? {
      OnlyFundingTakesMoney(cfg, db, now, w);
    }
  }

  /** Every justified write keeps the whole invariant. */
  lemma WriteKeepsInv(cfg: Config, db: Db, pledge: Option<Pledge>, clock: Time, now: Time, w: Write)
    requires Inv(cfg, db, pledge, clock) && clock <= now && Justified(cfg, db, now, w)
    requires w.AddProposal? ==> pledge.None?
    ensures Inv(cfg, Apply(db, w), pledge, now)
  {
    KeepsCallsOk(cfg, db, now, w);
    KeepsRowsOk(cfg, db, now, w);
    KeepsFillsOk(cfg, db, now, w);
    KeepsLifeOk(cfg, db, clock, now, w);
    KeepsMoneyOk(cfg, db, now, w);
    if pledge.Some? {
      KeepsPledgeOk(cfg, db, pledge.value, clock, now, w);
    }
  }

  // ----- references -----

  /** Every row the write names is in the tables. */
  predicate RefersToRows(db: Db, w: Write) {
    match w
    case AddCall(c) => c.parent.Some? ==> c.parent.value < |db.calls|
    case AddProposal(p) => p.callId < |db.calls|
    case MarkPosted(id, _) => id < |db.proposals|
    case Close(row) => row.proposal < |db.proposals|
    case Enter(buy, row) => buy.proposal < |db.proposals| && row.proposal < |db.proposals|
    case Leave(sale) => sale.proposal < |db.proposals|
    case Tighten(t) => t.callId < |db.calls|
    case Resolve(id, _) => id < |db.calls|
    case StartBook(_) => true
    case MarkPrice(_, _) => true
  }

  /** The writes can be made one after another, each naming rows that are there by then. */
  predicate AllReferToRows(db: Db, ws: seq<Write>)
    requires AllInsertable(db, ws)
    decreases |ws|
  {
    ws != [] ==> RefersToRows(db, ws[0]) && AllReferToRows(Apply(db, ws[0]), ws[1..])
  }

  lemma JustifiedRefers(cfg: Config, db: Db, now: Time, w: Write)
    requires Justified(cfg, db, now, w)
    ensures RefersToRows(db, w)
  {
    hide NetCash, Slots, EffectiveInvalidation, ExtensionOf, FillsOf, CarriesStop, VetoDeadline, LevelsStand, Worst;
  }

  lemma {:induction false} AllJustifiedRefer(cfg: Config, db: Db, now: Time, ws: seq<Write>)
    requires AllJustified(cfg, db, now, ws) && AllInsertable(db, ws)
    ensures AllReferToRows(db, ws)
    decreases |ws|
  {
    hide Justified, RefersToRows;
    if ws != [] {
      JustifiedRefers(cfg, db, now, ws[0]);
      AllJustifiedRefer(cfg, Apply(db, ws[0]), now, ws[1..]);
    }
  }

  // ----- sequences of writes -----

  ghost predicate AllJustified(cfg: Config, db: Db, now: Time, ws: seq<Write>)
    decreases |ws|
  {
    ws != [] ==> Justified(cfg, db, now, ws[0]) && AllJustified(cfg, Apply(db, ws[0]), now, ws[1..])
  }

  predicate NoFunding(ws: seq<Write>) { forall i :: 0 <= i < |ws| ==> !ws[i].AddProposal? }

  lemma JustifiedOne(cfg: Config, db: Db, now: Time, w: Write)
    requires Justified(cfg, db, now, w)
    ensures AllJustified(cfg, db, now, [w])
  {
    assert [w][1..] == [];
  }

  lemma JustifiedTwo(cfg: Config, db: Db, now: Time, a: Write, b: Write)
    requires Justified(cfg, db, now, a) && Justified(cfg, Apply(db, a), now, b)
    ensures AllJustified(cfg, db, now, [a, b])
  {
    assert [a, b][1..] == [b];
    JustifiedOne(cfg, Apply(db, a), now, b);
  }

  /** Justified writes that fund nothing keep the invariant, a pledge in flight included, and never lower net cash. */
  lemma {:induction false} WritesKeepInv(cfg: Config, db: Db, pledge: Option<Pledge>, clock: Time, now: Time, ws: seq<Write>)
    requires Inv(cfg, db, pledge, clock) && clock <= now && AllJustified(cfg, db, now, ws) && NoFunding(ws)
    ensures AllInsertable(db, ws) && Inv(cfg, ApplyAll(db, ws), pledge, now)
    ensures db.start.Some? ==> ApplyAll(db, ws).start == db.start && NetCash(db) <= NetCash(ApplyAll(db, ws))
    decreases |ws|
  {
    hide CallsOk, RowsOk, FillsOk, LifeOk, MoneyOk, PledgeOk, NetCash;
    if ws == [] {
      TimeKeepsInv(cfg, db, pledge, clock, now);
    } else {
      WriteKeepsInv(cfg, db, pledge, clock, now, ws[0]);
      WritesKeepInv(cfg, Apply(db, ws[0]), pledge, now, now, ws[1..]);
      if db.start.Some? {
        OnlyFundingTakesMoney(cfg, db, now, ws[0]);
      }
    }
  }

  lemma TimeKeepsInv(cfg: Config, db: Db, pledge: Option<Pledge>, clock: Time, now: Time)
    requires Inv(cfg, db, pledge, clock) && clock <= now
    ensures Inv(cfg, db, pledge, now)
  {
  }
}
