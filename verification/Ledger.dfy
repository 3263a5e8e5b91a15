/** The desk's tables and what the paper book derives from them (desk/paper.py).
    Row ids are positions. A proposal's three posting columns, null until it is posted, are the map `postings`. */
module Ledger {
  import opened Basics
  import opened Clock
  import opened Calls
  import opened Sizing
  import opened Money

  datatype Proposal = Proposal(
    callId: nat, createdAt: Time, instrument: Instrument, symbol: string, underlying: string,
    quantity: int, maxEntry: real, atrPct: Option<real>)

  datatype Posting = Posting(at: Time, deadline: Time, message: Option<string>)

  datatype OutcomeKind = Filled | SkippedPrice | SkippedInvalid | SkippedBlind | Expired

  datatype Outcome = Outcome(proposal: nat, at: Time, kind: OutcomeKind, vetoed: bool, approved: bool)

  datatype Side = Buy | Sell

  datatype Reason = Entry | StopHit | TargetHit | InvalidationHit | DteClose | CallResolved | PmExit

  datatype Fill = Fill(
    proposal: nat, at: Time, side: Side, quantity: int, price: real, reason: Reason,
    stopTrigger: Option<real>, stopLimit: Option<real>)

  datatype How = Target | Invalidation | Horizon | GapTarget | GapInvalidation | OpenThrough

  datatype Db = Db(
    start: Option<real>, calls: CallTable, tightenings: seq<Tightening>, proposals: seq<Proposal>,
    postings: map<nat, Posting>, outcomes: seq<Outcome>, fills: seq<Fill>, marks: map<string, real>,
    resolutions: map<nat, How>)

  function Mult(i: Instrument): (m: real)
    ensures 1.0 <= m
  {
    if i.Shares? then 1.0 else 100.0
  }

  function Notional(price: real, quantity: int, i: Instrument): real {
    price * quantity as real * Mult(i)
  }

  /** What a proposal costs if it fills at its limit. */
  function Worst(p: Proposal): real { Notional(p.maxEntry, p.quantity, p.instrument) }

  /** In numbers: a share costs its price, an option contract a hundred times its price. */
  lemma NotionalInNumbers(price: real, quantity: int)
    ensures Notional(price, quantity, Shares) == price * quantity as real
    ensures Notional(price, quantity, CallOption) == 100.0 * (price * quantity as real)
    ensures Notional(price, quantity, PutOption) == 100.0 * (price * quantity as real)
  {
  }

  /** What a fill does to cash, in numbers: a buy takes and a sell brings its price times its quantity, times a hundred
      for an option. */
  lemma FillMovesCash(proposals: seq<Proposal>, fills: seq<Fill>, f: Fill)
    requires f.proposal < |proposals|
    ensures var amount := f.price * f.quantity as real * (if proposals[f.proposal].instrument.Shares? then 1.0 else 100.0);
            CashFlow(proposals, fills + [f]) == CashFlow(proposals, fills) + if f.side.Sell? then amount else -amount
    ensures CashFlow(proposals, []) == 0.0
  {
    CashFlowAfter(proposals, fills, f);
    NotionalInNumbers(f.price, f.quantity);
  }

  /** What the book counts for a position, in numbers: its symbol's mark, else its entry price, times its quantity, times
      a hundred for an option; an option's premium is what was paid for it. */
  lemma PositionInNumbers(calls: CallTable, marks: map<string, real>, pos: Position)
    ensures var h, m := HeldAs(calls, marks, pos), if pos.instrument.Shares? then 1.0 else 100.0;
            && h.symbol == pos.underlying && !h.pending && (h.isOption <==> !pos.instrument.Shares?)
            && h.marketValue == (if pos.symbol in marks then marks[pos.symbol] else pos.entryPrice) * pos.quantity as real * m
            && h.premium == (if h.isOption then pos.entryPrice * pos.quantity as real * 100.0 else 0.0)
            && var id := CurrentCall(calls, pos.callId);
               h.benchmark == (if id < |calls| then calls[id].benchmark else "SPY")
  {
    hide CurrentCall;
  }

  /** And for a pending proposal: its limit times its quantity, times a hundred for an option. */
  lemma PledgeInNumbers(calls: CallTable, p: Proposal)
    ensures var h, m := PledgedAs(calls, p), if p.instrument.Shares? then 1.0 else 100.0;
            && h.symbol == p.underlying && h.pending && (h.isOption <==> !p.instrument.Shares?)
            && h.marketValue == p.maxEntry * p.quantity as real * m
            && h.premium == (if h.isOption then h.marketValue else 0.0)
            && h.benchmark == (if p.callId < |calls| then calls[p.callId].benchmark else "SPY")
  {
  }

  lemma NotionalMonotone(a: real, b: real, quantity: int, i: Instrument)
    requires a <= b && 0 <= quantity
    ensures Notional(a, quantity, i) <= Notional(b, quantity, i)
  {
    ScaleUp(a, b, quantity as real);
  }

  // ----- proposals by state -----

  /** Proposals with an outcome row. */
  function Done(outcomes: seq<Outcome>): set<nat> { set o | o in outcomes :: o.proposal }

  /** Proposals with an entry fill. */
  function Bought(fills: seq<Fill>): set<nat> { set f | f in fills && f.side.Buy? :: f.proposal }

  function Settled(db: Db): set<nat> { Done(db.outcomes) + Bought(db.fills) }

  /** The proposals outside `out`, oldest first. */
  function Outside(n: nat, out: set<nat>): (ids: seq<nat>)
    ensures forall i: nat :: i in ids <==> i < n && i !in out
    ensures forall k :: 0 <= k < |ids| ==> ids[k] < n
    ensures forall i, j :: 0 <= i < j < |ids| ==> ids[i] < ids[j]
  {
    if n == 0 then [] else
      var ids := Outside(n - 1, out);
      assert forall k :: 0 <= k < |ids| ==> ids[k] in ids;
      if n - 1 in out then ids else ids + [n - 1]
  }

  function Pending(db: Db): seq<nat> { Outside(|db.proposals|, Done(db.outcomes)) }

  function Unposted(db: Db): seq<nat> { Outside(|db.proposals|, Done(db.outcomes) + db.postings.Keys) }

  /** Money promised but not spent: no outcome and no entry fill. */
  function Committed(db: Db): seq<nat> { Outside(|db.proposals|, Settled(db)) }

  // ----- fills -----

  function Flow(proposals: seq<Proposal>, f: Fill): real {
    if f.proposal >= |proposals| then 0.0
    else
      var v := Notional(f.price, f.quantity, proposals[f.proposal].instrument);
      if f.side.Sell? then v else -v
  }

  /** Money in less money out over all fills. */
  function CashFlow(proposals: seq<Proposal>, fills: seq<Fill>): real {
    if fills == [] then 0.0
    else CashFlow(proposals, fills[..|fills| - 1]) + Flow(proposals, fills[|fills| - 1])
  }

  function FillsOf(fills: seq<Fill>, id: nat): seq<Fill> {
    if fills == [] then []
    else
      var last := fills[|fills| - 1];
      FillsOf(fills[..|fills| - 1], id) + (if last.proposal == id then [last] else [])
  }

  function Quantity(fs: seq<Fill>, side: Side): int {
    if fs == [] then 0
    else
      var last := fs[|fs| - 1];
      Quantity(fs[..|fs| - 1], side) + (if last.side == side then last.quantity else 0)
  }

  // ----- positions and closed trades -----

  datatype Position = Position(
    proposal: nat, callId: nat, instrument: Instrument, symbol: string, underlying: string, quantity: int,
    entryPrice: real, openedAt: Time, stopTrigger: Option<real>, stopLimit: Option<real>)

  /** One row per buy of `fs` that the sells have not used up. */
  function OpenBuys(id: nat, p: Proposal, fs: seq<Fill>, sold: int): seq<Position> {
    if fs == [] then []
    else
      var b := fs[|fs| - 1];
      OpenBuys(id, p, fs[..|fs| - 1], sold) +
      if b.side.Buy? && b.quantity - sold > 0 then
        [Position(id, p.callId, p.instrument, p.symbol, p.underlying, b.quantity - sold, b.price, b.at,
                  b.stopTrigger, b.stopLimit)]
      else []
  }

  function PositionsOf(id: nat, p: Proposal, fs: seq<Fill>): seq<Position> {
    OpenBuys(id, p, fs, Quantity(fs, Sell))
  }

  function OpenPositions(proposals: seq<Proposal>, fills: seq<Fill>): seq<Position> {
    if proposals == [] then []
    else
      var id := |proposals| - 1;
      OpenPositions(proposals[..id], fills) + PositionsOf(id, proposals[id], FillsOf(fills, id))
  }

  datatype ClosedTrade = ClosedTrade(proposal: nat, cost: real, proceeds: real)

  function Amount(fs: seq<Fill>, side: Side, i: Instrument): real {
    if fs == [] then 0.0
    else
      var last := fs[|fs| - 1];
      Amount(fs[..|fs| - 1], side, i) + (if last.side == side then Notional(last.price, last.quantity, i) else 0.0)
  }

  function TradesOf(id: nat, p: Proposal, fs: seq<Fill>): seq<ClosedTrade> {
    if Quantity(fs, Buy) > 0 && Quantity(fs, Buy) == Quantity(fs, Sell) then
      [ClosedTrade(id, Amount(fs, Buy, p.instrument), Amount(fs, Sell, p.instrument))]
    else []
  }

  function ClosedTrades(proposals: seq<Proposal>, fills: seq<Fill>): seq<ClosedTrade> {
    if proposals == [] then []
    else
      var id := |proposals| - 1;
      ClosedTrades(proposals[..id], fills) + TradesOf(id, proposals[id], FillsOf(fills, id))
  }

  // ----- the book as sizing sees it -----

  /** The worst cases of the proposals outside `out`, added up. */
  function Commitment(proposals: seq<Proposal>, out: set<nat>): real {
    if proposals == [] then 0.0
    else
      var id := |proposals| - 1;
      Commitment(proposals[..id], out) + (if id in out then 0.0 else Worst(proposals[id]))
  }

  function BenchmarkOf(calls: seq<Call>, id: nat): string {
    if id < |calls| then calls[id].benchmark else "SPY"
  }

  function HeldAs(calls: CallTable, marks: map<string, real>, p: Position): Holding {
    var price := if p.symbol in marks then marks[p.symbol] else p.entryPrice;
    Holding(
      p.underlying, Notional(price, p.quantity, p.instrument), BenchmarkOf(calls, CurrentCall(calls, p.callId)),
      !p.instrument.Shares?, if p.instrument.Shares? then 0.0 else Notional(p.entryPrice, p.quantity, p.instrument), false)
  }

  function PledgedAs(calls: seq<Call>, p: Proposal): Holding {
    Holding(
      p.underlying, Worst(p), BenchmarkOf(calls, p.callId), !p.instrument.Shares?,
      if p.instrument.Shares? then 0.0 else Worst(p), true)
  }

  function PositionHoldings(calls: CallTable, marks: map<string, real>, ps: seq<Position>): (hs: seq<Holding>)
    ensures |hs| == |ps|
  {
    if ps == [] then []
    else PositionHoldings(calls, marks, ps[..|ps| - 1]) + [HeldAs(calls, marks, ps[|ps| - 1])]
  }

  /** A holding for each proposal outside `out`. */
  function PledgeHoldings(calls: seq<Call>, proposals: seq<Proposal>, out: set<nat>): (hs: seq<Holding>)
    ensures |hs| == |Outside(|proposals|, out)|
  {
    if proposals == [] then []
    else
      var id := |proposals| - 1;
      var hs := PledgeHoldings(calls, proposals[..id], out);
      if id in out then hs else hs + [PledgedAs(calls, proposals[id])]
  }

  function Excluded(exclude: Option<nat>): set<nat> { if exclude.None? then {} else {exclude.value} }

  function Book(db: Db, exclude: Option<nat>): Result<BookState> {
    if db.start.None? then Refused(BookNotStarted)
    else
      var out := Settled(db) + Excluded(exclude);
      var hs := PositionHoldings(db.calls, db.marks, OpenPositions(db.proposals, db.fills)) +
                PledgeHoldings(db.calls, db.proposals, out);
      var cash := db.start.value + CashFlow(db.proposals, db.fills) - Commitment(db.proposals, out);
      Ok(BookState(cash + Total(hs, MarketValue()), cash, hs))
  }

  /** Cash net of every pending proposal's worst case. */
  function NetCash(db: Db): real
    requires db.start.Some?
  {
    db.start.value + CashFlow(db.proposals, db.fills) - Commitment(db.proposals, Settled(db))
  }

  /** Open positions plus pending proposals. */
  function Slots(db: Db): nat {
    |OpenPositions(db.proposals, db.fills)| + |Committed(db)|
  }

  lemma UnpostedIds(db: Db)
    ensures forall i, j :: 0 <= i < j < |Unposted(db)| ==> Unposted(db)[i] < Unposted(db)[j]
    ensures forall id: nat :: id in Unposted(db) ==> id < |db.proposals| && id !in db.postings
  {
  }

  lemma CommittedIds(db: Db)
    ensures forall i, j :: 0 <= i < j < |Committed(db)| ==> Committed(db)[i] < Committed(db)[j]
    ensures forall k :: 0 <= k < |Committed(db)| ==> Committed(db)[k] < |db.proposals|
  {
  }

  lemma PendingIds(db: Db)
    ensures forall i, j :: 0 <= i < j < |Pending(db)| ==> Pending(db)[i] < Pending(db)[j]
    ensures forall k :: 0 <= k < |Pending(db)| ==> Pending(db)[k] < |db.proposals|
  {
  }

  /** Who is in each list: pending without an outcome, unposted without an outcome or a posting, committed without an
      outcome or a buy. */
  lemma ListsExactly(db: Db, id: nat)
    ensures id in Pending(db) <==> id < |db.proposals| && forall k :: 0 <= k < |db.outcomes| ==> db.outcomes[k].proposal != id
    ensures id in Unposted(db) <==> id in Pending(db) && id !in db.postings
    ensures id in Committed(db) <==>
              id in Pending(db) && forall k :: 0 <= k < |db.fills| && db.fills[k].side.Buy? ==> db.fills[k].proposal != id
  {
    if id !in Done(db.outcomes) {
      forall k | 0 <= k < |db.outcomes| ensures db.outcomes[k].proposal != id {
        assert db.outcomes[k] in db.outcomes;
      }
    }
    if id !in Bought(db.fills) {
      forall k | 0 <= k < |db.fills| && db.fills[k].side.Buy? ensures db.fills[k].proposal != id {
        assert db.fills[k] in db.fills;
      }
    }
  }

  // ----- appending rows -----

  lemma Snoc<T>(s: seq<T>, x: T)
    ensures (s + [x])[..|s + [x]| - 1] == s && (s + [x])[|s + [x]| - 1] == x
  {
  }

  lemma DoneAfter(outcomes: seq<Outcome>, o: Outcome)
    ensures Done(outcomes + [o]) == Done(outcomes) + {o.proposal}
  {
    assert forall x :: x in outcomes + [o] <==> x in outcomes || x == o;
    forall id | id in Done(outcomes) + {o.proposal} ensures id in Done(outcomes + [o]) {
      if id == o.proposal {
        assert o in outcomes + [o];
      } else {
        var x :| x in outcomes && x.proposal == id;
        assert x in outcomes + [o];
      }
    }
  }

  lemma BoughtAfter(fills: seq<Fill>, f: Fill)
    ensures Bought(fills + [f]) == Bought(fills) + (if f.side.Buy? then {f.proposal} else {})
  {
    assert forall x :: x in fills + [f] <==> x in fills || x == f;
    forall id | id in Bought(fills) ensures id in Bought(fills + [f]) {
      var x :| x in fills && x.side.Buy? && x.proposal == id;
      assert x in fills + [f];
    }
    if f.side.Buy? {
      assert f in fills + [f];
    }
  }

  lemma FillsAfter(fills: seq<Fill>, f: Fill, id: nat)
    ensures FillsOf(fills + [f], id) == FillsOf(fills, id) + (if f.proposal == id then [f] else [])
  {
    Snoc(fills, f);
  }

  lemma CashFlowAfter(proposals: seq<Proposal>, fills: seq<Fill>, f: Fill)
    ensures CashFlow(proposals, fills + [f]) == CashFlow(proposals, fills) + Flow(proposals, f)
  {
    Snoc(fills, f);
  }

  lemma {:induction false} BoughtHasFills(fills: seq<Fill>, id: nat)
    ensures id in Bought(fills) <==> exists f :: f in FillsOf(fills, id) && f.side.Buy?
    ensures forall f :: f in FillsOf(fills, id) ==> f in fills && f.proposal == id
  {
    if fills != [] {
      var init, last := fills[..|fills| - 1], fills[|fills| - 1];
      assert fills == init + [last];
      BoughtHasFills(init, id);
      BoughtAfter(init, last);
    }
  }

  lemma {:induction false} FillsOfUnknown(proposals: seq<Proposal>, fills: seq<Fill>, id: nat)
    requires forall f :: f in fills ==> f.proposal < |proposals|
    requires |proposals| <= id
    ensures FillsOf(fills, id) == []
  {
    if fills != [] {
      assert fills[|fills| - 1] in fills;
      FillsOfUnknown(proposals, fills[..|fills| - 1], id);
    }
  }

  // ----- commitments -----

  /** Counting one more proposal as settled takes exactly its worst case off the commitment. */
  lemma {:induction false} SettlingOne(proposals: seq<Proposal>, out: set<nat>, id: nat)
    ensures Commitment(proposals, out + {id}) ==
            Commitment(proposals, out) - (if id < |proposals| && id !in out then Worst(proposals[id]) else 0.0)
    ensures |Outside(|proposals|, out + {id})| ==
            |Outside(|proposals|, out)| - (if id < |proposals| && id !in out then 1 else 0)
  {
    if proposals != [] {
      SettlingOne(proposals[..|proposals| - 1], out, id);
    }
  }

  /** The pending holdings are worth exactly what was taken off cash for them. */
  lemma {:induction false} PledgesAreWorthTheCommitment(calls: seq<Call>, proposals: seq<Proposal>, out: set<nat>)
    ensures Total(PledgeHoldings(calls, proposals, out), MarketValue()) == Commitment(proposals, out)
  {
    if proposals != [] {
      var id := |proposals| - 1;
      PledgesAreWorthTheCommitment(calls, proposals[..id], out);
      if id !in out {
        Snoc(PledgeHoldings(calls, proposals[..id], out), PledgedAs(calls, proposals[id]));
      }
    }
  }

  /** Commitment neutrality: equity is start equity, plus cash flow, plus the positions at their marks, whatever is
      pending; and leaving one pending proposal out adds back exactly its worst case. */
  lemma EquityIgnoresCommitments(db: Db, exclude: Option<nat>)
    requires db.start.Some?
    ensures Book(db, exclude).Ok?
    ensures Book(db, exclude).value.equity ==
            db.start.value + CashFlow(db.proposals, db.fills) +
            Total(PositionHoldings(db.calls, db.marks, OpenPositions(db.proposals, db.fills)), MarketValue())
    ensures Book(db, None).value.cash == NetCash(db) && |Book(db, None).value.holdings| == Slots(db)
    ensures exclude.Some? && exclude.value in Committed(db) ==>
              Book(db, exclude).value.cash == NetCash(db) + Worst(db.proposals[exclude.value])
  {
    var out := Settled(db) + Excluded(exclude);
    PledgesAreWorthTheCommitment(db.calls, db.proposals, out);
    TotalOfConcat(PositionHoldings(db.calls, db.marks, OpenPositions(db.proposals, db.fills)),
                  PledgeHoldings(db.calls, db.proposals, out), MarketValue());
    assert Settled(db) + Excluded(None) == Settled(db);
    if exclude.Some? {
      SettlingOne(db.proposals, Settled(db), exclude.value);
    }
  }

  // ----- one proposal's fills change -----

  /** Only proposal `id` has different fills: the position list changes by that proposal's rows alone. */
  lemma {:induction false} PositionsChangeOne(proposals: seq<Proposal>, a: seq<Fill>, b: seq<Fill>, id: nat)
    requires forall i :: 0 <= i < |proposals| && i != id ==> FillsOf(a, i) == FillsOf(b, i)
    ensures |OpenPositions(proposals, b)| == |OpenPositions(proposals, a)| +
            if id < |proposals| then
              |PositionsOf(id, proposals[id], FillsOf(b, id))| - |PositionsOf(id, proposals[id], FillsOf(a, id))|
            else 0
  {
    if proposals != [] {
      var last := |proposals| - 1;
      PositionsChangeOne(proposals[..last], a, b, id);
      assert last != id ==> FillsOf(a, last) == FillsOf(b, last);
      assert id < last ==> proposals[..last][id] == proposals[id];
    }
  }

  lemma {:induction false} PositionsInTable(proposals: seq<Proposal>, fills: seq<Fill>)
    ensures forall p :: p in OpenPositions(proposals, fills) ==>
              p.proposal < |proposals| && p in PositionsOf(p.proposal, proposals[p.proposal], FillsOf(fills, p.proposal))
    ensures forall id, p :: 0 <= id < |proposals| && p in PositionsOf(id, proposals[id], FillsOf(fills, id)) ==>
              p in OpenPositions(proposals, fills)
  {
    if proposals != [] {
      var id := |proposals| - 1;
      PositionsInTable(proposals[..id], fills);
      forall p | p in PositionsOf(id, proposals[id], FillsOf(fills, id)) ensures p.proposal == id {
        PositionsNameTheirProposal(id, proposals[id], FillsOf(fills, id), Quantity(FillsOf(fills, id), Sell));
      }
    }
  }

  lemma PositionsNameTheirProposal(id: nat, p: Proposal, fs: seq<Fill>, sold: int)
    ensures forall pos :: pos in OpenBuys(id, p, fs, sold) ==> pos.proposal == id
  {
  }
}
