/** Ledger cash, read off the fills, against the trade list and the position list, read off the proposals. */
module Conservation {
  import opened Basics
  import opened Ledger
  import opened DeskInvariant

  /** Profit of the closed trades. */
  function Profit(ts: seq<ClosedTrade>): real {
    if ts == [] then 0.0 else Profit(ts[..|ts| - 1]) + ts[|ts| - 1].proceeds - ts[|ts| - 1].cost
  }

  /** What the open positions cost to enter. */
  function EntryCost(ps: seq<Position>): real {
    if ps == [] then 0.0
    else EntryCost(ps[..|ps| - 1]) + Notional(ps[|ps| - 1].entryPrice, ps[|ps| - 1].quantity, ps[|ps| - 1].instrument)
  }

  /** Money in less money out, proposal by proposal. */
  function FlowByProposal(proposals: seq<Proposal>, fills: seq<Fill>): real {
    if proposals == [] then 0.0
    else
      var id := |proposals| - 1;
      FlowByProposal(proposals[..id], fills) + FlowOf(proposals[id], FillsOf(fills, id))
  }

  function FlowOf(p: Proposal, fs: seq<Fill>): real {
    Amount(fs, Sell, p.instrument) - Amount(fs, Buy, p.instrument)
  }

  lemma AmountAfter(fs: seq<Fill>, f: Fill, side: Side, i: Instrument)
    ensures Amount(fs + [f], side, i) == Amount(fs, side, i) + (if f.side == side then Notional(f.price, f.quantity, i) else 0.0)
  {
    Snoc(fs, f);
  }

  /** One more fill moves one proposal's flow, by that fill. */
  lemma {:induction false} OneMoreFill(proposals: seq<Proposal>, fills: seq<Fill>, f: Fill)
    ensures FlowByProposal(proposals, fills + [f]) == FlowByProposal(proposals, fills) + Flow(proposals, f)
  {
    hide Notional;
    if proposals != [] {
      var id := |proposals| - 1;
      var p, fs := proposals[id], FillsOf(fills, id);
      OneMoreFill(proposals[..id], fills, f);
      FillsAfter(fills, f, id);
      if f.proposal == id {
        AmountAfter(fs, f, Sell, p.instrument);
        AmountAfter(fs, f, Buy, p.instrument);
      } else {
        assert fs + [] == fs;
      }
    }
  }

  lemma {:induction false} NoFillsNoFlow(proposals: seq<Proposal>)
    ensures FlowByProposal(proposals, []) == 0.0
  {
    if proposals != [] {
      NoFillsNoFlow(proposals[..|proposals| - 1]);
    }
  }

  /** Summing by fill and summing by proposal agree. */
  lemma {:induction false} FlowSplitsByProposal(proposals: seq<Proposal>, fills: seq<Fill>)
    ensures CashFlow(proposals, fills) == FlowByProposal(proposals, fills)
  {
    if fills == [] {
      NoFillsNoFlow(proposals);
    } else {
      var init, last := fills[..|fills| - 1], fills[|fills| - 1];
      assert fills == init + [last];
      FlowSplitsByProposal(proposals, init);
      OneMoreFill(proposals, init, last);
    }
  }

  lemma ProfitOfConcat(a: seq<ClosedTrade>, b: seq<ClosedTrade>)
    requires |b| <= 1
    ensures Profit(a + b) == Profit(a) + Profit(b)
  {
    if b == [] {
      assert a + b == a;
    } else {
      assert b == [b[0]] && b[..0] == [];
      Snoc(a, b[0]);
    }
  }

  lemma EntryCostOfConcat(a: seq<Position>, b: seq<Position>)
    requires |b| <= 1
    ensures EntryCost(a + b) == EntryCost(a) + EntryCost(b)
  {
    if b == [] {
      assert a + b == a;
    } else {
      assert b == [b[0]] && b[..0] == [];
      Snoc(a, b[0]);
    }
  }

  /** One proposal: its flow is its trade's profit less its position's cost. */
  lemma FlowOfShape(id: nat, p: Proposal, fs: seq<Fill>)
    requires FillShape(fs, p.quantity) && 0 < p.quantity
    ensures FlowOf(p, fs) == Profit(TradesOf(id, p, fs)) - EntryCost(PositionsOf(id, p, fs))
    ensures |TradesOf(id, p, fs)| <= 1 && |PositionsOf(id, p, fs)| <= 1
  {
    hide Notional;
    if |fs| == 1 {
      var b := fs[0];
      assert fs == [] + [b] == [b];
      OneBuyIsOnePosition(id, p, b);
      AmountAfter([], b, Buy, p.instrument);
      AmountAfter([], b, Sell, p.instrument);
      QuantityAfter([], b, Buy);
      QuantityAfter([], b, Sell);
    } else if |fs| == 2 {
      assert fs == [fs[0], fs[1]];
      BoughtAndSoldIsFlat(id, p, fs[0], fs[1]);
      assert TradesOf(id, p, fs)[..0] == [];
    }
  }

  lemma {:induction false} FlowIsProfitLessCost(proposals: seq<Proposal>, fills: seq<Fill>)
    requires forall id :: 0 <= id < |proposals| ==> FillShape(FillsOf(fills, id), proposals[id].quantity) && 0 < proposals[id].quantity
    ensures FlowByProposal(proposals, fills) ==
            Profit(ClosedTrades(proposals, fills)) - EntryCost(OpenPositions(proposals, fills))
  {
    if proposals != [] {
      var id := |proposals| - 1;
      var init, p, fs := proposals[..id], proposals[id], FillsOf(fills, id);
      FlowIsProfitLessCost(init, fills);
      FlowOfShape(id, p, fs);
      ProfitOfConcat(ClosedTrades(init, fills), TradesOf(id, p, fs));
      EntryCostOfConcat(OpenPositions(init, fills), PositionsOf(id, p, fs));
    }
  }

  /** Conservation: cash is start equity, plus the profit of all closed trades, less the entry cost of all open positions. */
  lemma CashIsConserved(db: Db)
    requires RowsOk(db) && FillsOk(db) && db.start.Some?
    ensures db.start.value + CashFlow(db.proposals, db.fills) ==
            db.start.value + Profit(ClosedTrades(db.proposals, db.fills)) - EntryCost(OpenPositions(db.proposals, db.fills))
  {
    FlowSplitsByProposal(db.proposals, db.fills);
    forall id | 0 <= id < |db.proposals|
      ensures FillShape(FillsOf(db.fills, id), db.proposals[id].quantity) && 0 < db.proposals[id].quantity
    {
      assert ProposalOk(db, db.proposals[id]);
    }
    FlowIsProfitLessCost(db.proposals, db.fills);
  }
}
