/** When and at what price a position is sold (desk/watch.py `_exit_reason`, `_exits`), over every run. */
module DeskExits {
  import opened Basics
  import opened Clock
  import opened Calls
  import opened Sizing
  import opened Ledger
  import opened Desk
  import opened DeskInvariant
  import opened DeskRuns
  import opened DeskTheorems

  /** Both quotes are there and fresh. */
  predicate Quoted(e: ExitInput, now: Time) {
    && e.underlying.Some? && now - e.underlying.value.time <= 300 * SECOND
    && e.own.Some? && now - e.own.value.time <= 300 * SECOND
  }

  /** A level of the governing call is met at this price of the underlying: shares by their live stop or the target, an
      option by the invalidation or the target on the call's side. */
  predicate LevelMet(db: Db, pos: Position, last: real)
    requires pos.callId < |db.calls|
  {
    var call := db.calls[CurrentCall(db.calls, pos.callId)];
    var invalidation := GoverningInvalidation(db, pos);
    if pos.instrument.Shares? then last <= LiveTrigger(pos, invalidation) || last >= call.target
    else if call.direction.Up? then last <= invalidation || last >= call.target
    else last >= invalidation || last <= call.target
  }

  /** Everything that calls for a sale. */
  predicate MustLeave(db: Db, cfg: Config, pos: Position, e: ExitInput, now: Time)
    requires pos.callId < |db.calls| && e.underlying.Some?
  {
    || LevelMet(db, pos, e.underlying.value.last)
    || (!pos.instrument.Shares? && e.dte <= cfg.rules.optionCloseAtDte)
    || (TimeOfDay(now) >= 10 * HOUR && CurrentCall(db.calls, pos.callId) in db.resolutions)
    || e.wanted
  }

  lemma HitExactlyWhenItMustLeave(db: Db, cfg: Config, pos: Position, e: ExitInput, now: Time)
    requires pos.callId < |db.calls| && Quoted(e, now)
    ensures ExitHit(db, cfg, pos, e.underlying.value, e.own.value, e, now).Some? <==> MustLeave(db, cfg, pos, e, now)
    ensures var hit := ExitHit(db, cfg, pos, e.underlying.value, e.own.value, e, now);
            hit.Some? && !hit.value.0.StopHit? ==> hit.value.1 == e.own.value.bid
  {
    hide EffectiveInvalidation, LiveTrigger, LiveLimit;
  }

  /** Why a position leaves: the first of its reasons, the stop or the invalidation before the target, then an option's
      close-out, then the resolved call, then the PM. */
  lemma ReasonsInOrder(db: Db, cfg: Config, pos: Position, e: ExitInput, now: Time)
    requires pos.callId < |db.calls| && Quoted(e, now)
    ensures var hit := ExitHit(db, cfg, pos, e.underlying.value, e.own.value, e, now);
            var last, call := e.underlying.value.last, db.calls[CurrentCall(db.calls, pos.callId)];
            var level, shares, up := GoverningInvalidation(db, pos), pos.instrument.Shares?, call.direction.Up?;
            hit.Some? ==>
              match hit.value.0
              case StopHit => shares && last <= LiveTrigger(pos, level)
              case InvalidationHit => !shares && if up then last <= level else last >= level
              case TargetHit =>
                && (if shares || up then last >= call.target else last <= call.target)
                && (if shares then last > LiveTrigger(pos, level) else if up then last > level else last < level)
              case DteClose => !shares && e.dte <= cfg.rules.optionCloseAtDte && !LevelMet(db, pos, last)
              case CallResolved => !LevelMet(db, pos, last) && CurrentCall(db.calls, pos.callId) in db.resolutions
              case PmExit => !LevelMet(db, pos, last) && e.wanted
              case Entry => false
  {
    hide EffectiveInvalidation, LiveTrigger, LiveLimit;
  }

  /** The rows of a position's proposal after an exit step: the sale when there was one, else as before. */
  lemma FillsAfterExit(cfg: Config, s: State, step: Step, s': State)
    requires Good(cfg, s) && step.ExitStep? && Next(cfg, s, step, s')
    ensures s'.db.proposals == s.db.proposals
    ensures var pos, e, now := step.pos, step.exit, step.now;
            s'.db.fills == s.db.fills +
              if !Quoted(e, now) || ExitHit(s.db, cfg, pos, e.underlying.value, e.own.value, e, now).None? then []
              else
                var hit := ExitHit(s.db, cfg, pos, e.underlying.value, e.own.value, e, now).value;
                [Fill(pos.proposal, now, Sell, pos.quantity, hit.1, hit.0, None, None)]
  {
    hide Inv, ExitHit, OpenPositions, InSession, SaneQuote;
    var ws := ExitWrites(s.db, cfg, step.pos, step.exit, step.now);
    if |ws| == 1 {
      assert ws == [ws[0]];
      ApplyOne(s.db, ws[0]);
    } else if |ws| == 2 {
      assert ws == [ws[0], ws[1]];
      ApplyTwo(s.db, ws[0], ws[1]);
    }
  }

  /** What an exit pass stores as the mark: the underlying's last price for shares, the contract's own bid for an option. */
  function MarkOf(pos: Position, e: ExitInput): real
    requires e.underlying.Some? && e.own.Some?
  {
    if pos.instrument.Shares? then e.underlying.value.last else e.own.value.bid
  }

  /** In every run an exit pass with fresh quotes sets its own symbol's mark to that price, and one without changes none. */
  lemma ExitMarksItsOwn(cfg: Config, steps: seq<Step>, states: seq<State>, k: nat)
    requires Run(cfg, steps, states) && k < |steps| && steps[k].ExitStep?
    ensures var s, step, s' := states[k], steps[k], states[k + 1];
            && (Quoted(step.exit, step.now) ==> s'.db.marks == s.db.marks[step.pos.symbol := MarkOf(step.pos, step.exit)])
            && (!Quoted(step.exit, step.now) ==> s'.db == s.db)
  {
    var s, step, s' := states[k], steps[k], states[k + 1];
    assert Next(cfg, s, step, s');
    hide Run, ExitHit, OpenPositions, InSession, SaneQuote;
    var ws := ExitWrites(s.db, cfg, step.pos, step.exit, step.now);
    if |ws| == 1 {
      assert ws == [ws[0]];
      ApplyOne(s.db, ws[0]);
    } else if |ws| == 2 {
      assert ws == [ws[0], ws[1]];
      ApplyTwo(s.db, ws[0], ws[1]);
    }
  }

  /** No other step moves a mark. */
  lemma OnlyExitsMark(cfg: Config, steps: seq<Step>, states: seq<State>, k: nat)
    requires Run(cfg, steps, states) && k < |steps| && !steps[k].ExitStep?
    ensures states[k + 1].db.marks == states[k].db.marks
  {
    var s, step, s' := states[k], steps[k], states[k + 1];
    assert Next(cfg, s, step, s');
    hide Run;
    NoMarkIsWritten(cfg, s, step);
    hide Enabled, Writes, PledgeAfter;
    UnmarkedWritesKeepMarks(s.db, Writes(cfg, s, step));
  }

  predicate NoMarks(ws: seq<Write>) { forall k :: 0 <= k < |ws| ==> !ws[k].MarkPrice? }

  lemma NoMarkIsWritten(cfg: Config, s: State, step: Step)
    requires Enabled(cfg, s, step) && !step.ExitStep?
    ensures NoMarks(Writes(cfg, s, step))
  {
    hide Decide, Extend, TightenTo, Submit, InSession, Committed, Pending, Unposted, OpenPositions, PostingEnd, VetoDeadline;
  }

  lemma {:induction false} UnmarkedWritesKeepMarks(db: Db, ws: seq<Write>)
    requires AllInsertable(db, ws) && NoMarks(ws)
    ensures ApplyAll(db, ws).marks == db.marks
    decreases |ws|
  {
    if ws != [] {
      assert !ws[0].MarkPrice?;
      UnmarkedWritesKeepMarks(Apply(db, ws[0]), ws[1..]);
    }
  }

  lemma {:induction false} HoldingOf(calls: CallTable, marks: map<string, real>, ps: seq<Position>, j: nat)
    requires j < |ps|
    ensures PositionHoldings(calls, marks, ps)[j] == HeldAs(calls, marks, ps[j])
  {
    hide HeldAs;
    if j < |ps| - 1 { HoldingOf(calls, marks, ps[..|ps| - 1], j); }
  }

  /** The book lists the open positions first, in their order. */
  lemma BookHoldingOf(db: Db, j: nat)
    requires db.start.Some? && j < |OpenPositions(db.proposals, db.fills)|
    ensures Book(db, None).Ok? && j < |Book(db, None).value.holdings|
    ensures Book(db, None).value.holdings[j] == HeldAs(db.calls, db.marks, OpenPositions(db.proposals, db.fills)[j])
  {
    HoldingOf(db.calls, db.marks, OpenPositions(db.proposals, db.fills), j);
    hide HeldAs, OpenPositions, PositionHoldings, PledgeHoldings, Settled, CashFlow, Commitment, Total;
  }

  /** So a position that a fresh pass leaves open is worth, in the book that sizing sees, its quantity times that price,
      times a hundred for an option. */
  lemma HeldAtItsQuote(cfg: Config, steps: seq<Step>, states: seq<State>, k: nat, j: nat)
    requires SaneRules(cfg.rules) && Run(cfg, steps, states) && k < |steps|
    requires steps[k].ExitStep? && Quoted(steps[k].exit, steps[k].now)
    requires var db := states[k + 1].db;
             j < |OpenPositions(db.proposals, db.fills)| && OpenPositions(db.proposals, db.fills)[j] == steps[k].pos
    ensures var book, pos := Book(states[k + 1].db, None), steps[k].pos;
            && book.Ok? && j < |book.value.holdings|
            && book.value.holdings[j].symbol == pos.underlying
            && book.value.holdings[j].marketValue ==
               MarkOf(pos, steps[k].exit) * pos.quantity as real * (if pos.instrument.Shares? then 1.0 else 100.0)
  {
    hide Next, HeldAs, OpenPositions, Book, MarkOf, Quoted, SaneRules;
    var db, pos := states[k + 1].db, steps[k].pos;
    HoldersHaveStarted(cfg, steps, states, k + 1);
    ExitMarksItsOwn(cfg, steps, states, k);
    BookHoldingOf(db, j);
    PositionInNumbers(db.calls, db.marks, pos);
    QuotesAreThere(steps[k].exit, steps[k].now);
    assert pos.symbol in db.marks && db.marks[pos.symbol] == MarkOf(pos, steps[k].exit);
  }

  lemma HoldersHaveStarted(cfg: Config, steps: seq<Step>, states: seq<State>, i: nat)
    requires SaneRules(cfg.rules) && Run(cfg, steps, states) && i < |states|
    requires OpenPositions(states[i].db.proposals, states[i].db.fills) != []
    ensures states[i].db.start.Some?
  {
    EveryStateIsGood(cfg, steps, states, i);
    hide Run, CallsOk, FillsOk, LifeOk, MoneyOk, PledgeOk;
  }

  lemma SoldFills(db: Db, pos: Position, sale: Fill)
    requires RowsOk(db) && FillsOk(db) && pos in OpenPositions(db.proposals, db.fills)
    requires sale.proposal == pos.proposal && IsTrade(sale, Sell, pos.quantity)
    ensures pos.proposal < |db.proposals|
    ensures PositionsOf(pos.proposal, db.proposals[pos.proposal], FillsOf(db.fills + [sale], pos.proposal)) == []
  {
    hide PositionsOf, OpenPositions;
    var id := pos.proposal;
    PositionIsItsBuy(db, pos);
    assert FillShape(FillsOf(db.fills, id), db.proposals[id].quantity);
    hide RowsOk, FillsOk;
    var b := FillsOf(db.fills, id)[0];
    FillsAfter(db.fills, sale, id);
    hide FillsOf;
    assert FillsOf(db.fills, id) == [b] && [b] + [sale] == [b, sale];
    BoughtAndSoldIsFlat(id, db.proposals[id], b, sale);
  }

  /** A full sale leaves no row of the proposal. */
  lemma SoldIsGone(db: Db, pos: Position, sale: Fill)
    requires RowsOk(db) && FillsOk(db) && pos in OpenPositions(db.proposals, db.fills)
    requires sale.proposal == pos.proposal && IsTrade(sale, Sell, pos.quantity)
    ensures forall p :: p in OpenPositions(db.proposals, db.fills + [sale]) ==> p.proposal != pos.proposal
  {
    hide RowsOk, FillsOk, OpenPositions, PositionsOf, FillsOf;
    SoldFills(db, pos, sale);
    PositionsInTable(db.proposals, db.fills + [sale]);
  }

  /** In every run an exit step takes its position out of the book exactly when its quotes are fresh and a level is met,
      its option is at the close-out, its call is resolved after ten, or the PM asked; otherwise the position stays. */
  lemma PositionLeavesExactlyWhen(cfg: Config, steps: seq<Step>, states: seq<State>, k: nat)
    requires SaneRules(cfg.rules) && Run(cfg, steps, states) && k < |steps| && steps[k].ExitStep?
    ensures var s, step, s' := states[k], steps[k], states[k + 1];
            && step.pos.callId < |s.db.calls|
            && if Quoted(step.exit, step.now) && MustLeave(s.db, cfg, step.pos, step.exit, step.now)
               then forall p :: p in OpenPositions(s'.db.proposals, s'.db.fills) ==> p.proposal != step.pos.proposal
               else OpenPositions(s'.db.proposals, s'.db.fills) == OpenPositions(s.db.proposals, s.db.fills)
  {
    var s, step, s' := states[k], steps[k], states[k + 1];
    EveryStateIsGood(cfg, steps, states, k);
    assert Next(cfg, s, step, s');
    hide Run, ExitHit, OpenPositions, CallsOk, RowsOk, FillsOk, LifeOk, MoneyOk, PledgeOk, InSession, MustLeave,
      Quoted, SaneRules, Writes;
    FillsAfterExit(cfg, s, step, s');
    var pos, e, now := step.pos, step.exit, step.now;
    if Quoted(e, now) {
      QuotesAreThere(e, now);
      HitExactlyWhenItMustLeave(s.db, cfg, pos, e, now);
      var hit := ExitHit(s.db, cfg, pos, e.underlying.value, e.own.value, e, now);
      if hit.Some? {
        SoldIsGone(s.db, pos, Fill(pos.proposal, now, Sell, pos.quantity, hit.value.1, hit.value.0, None, None));
      } else {
        assert s'.db.fills == s.db.fills;
      }
    } else {
      assert s'.db.fills == s.db.fills;
    }
  }

  lemma QuotesAreThere(e: ExitInput, now: Time)
    requires Quoted(e, now)
    ensures e.underlying.Some? && e.own.Some?
  {
  }

  /** The stop works: in every run a share position whose underlying trades at or under its live trigger is sold in full
      in that pass, at the trigger, or at the bid once the price is under the limit that belongs to the trigger. */
  lemma StopSells(cfg: Config, steps: seq<Step>, states: seq<State>, k: nat)
    requires SaneRules(cfg.rules) && Run(cfg, steps, states) && k < |steps| && steps[k].ExitStep?
    requires steps[k].pos.instrument.Shares? && Quoted(steps[k].exit, steps[k].now)
    requires steps[k].pos.callId < |states[k].db.calls|
    requires steps[k].exit.underlying.value.last <= LiveTrigger(steps[k].pos, GoverningInvalidation(states[k].db, steps[k].pos))
    ensures var s, step, s' := states[k], steps[k], states[k + 1];
            var trigger := LiveTrigger(step.pos, GoverningInvalidation(s.db, step.pos));
            var held := step.exit.underlying.value.last >= LimitBelow(trigger, cfg.rules);
            var price := if held then trigger else step.exit.own.value.bid;
            && s'.db.fills == s.db.fills + [Fill(step.pos.proposal, step.now, Sell, step.pos.quantity, price, StopHit, None, None)]
            && forall p :: p in OpenPositions(s'.db.proposals, s'.db.fills) ==> p.proposal != step.pos.proposal
  {
    var s, step, s' := states[k], steps[k], states[k + 1];
    EveryStateIsGood(cfg, steps, states, k);
    assert Next(cfg, s, step, s');
    FillsAfterExit(cfg, s, step, s');
    LimitFollowsTrigger(cfg, steps, states, k, step.pos);
    StopHits(s.db, cfg, step.pos, step.exit, step.now);
    hide Run, ExitHit, OpenPositions, CallsOk, RowsOk, FillsOk, LifeOk, MoneyOk, PledgeOk, LiveTrigger, LimitBelow,
      GoverningInvalidation;
    var hit := ExitHit(s.db, cfg, step.pos, step.exit.underlying.value, step.exit.own.value, step.exit, step.now).value;
    SoldIsGone(s.db, step.pos, Fill(step.pos.proposal, step.now, Sell, step.pos.quantity, hit.1, hit.0, None, None));
  }

  lemma StopHits(db: Db, cfg: Config, pos: Position, e: ExitInput, now: Time)
    requires pos.callId < |db.calls| && Quoted(e, now) && pos.instrument.Shares?
    requires e.underlying.value.last <= LiveTrigger(pos, GoverningInvalidation(db, pos))
    ensures var invalidation := GoverningInvalidation(db, pos);
            var trigger, limit := LiveTrigger(pos, invalidation), LiveLimit(pos, invalidation, cfg.rules);
            ExitHit(db, cfg, pos, e.underlying.value, e.own.value, e, now) ==
            Some((StopHit, if limit.None? || e.underlying.value.last >= limit.value then trigger else e.own.value.bid))
  {
    hide EffectiveInvalidation, LiveTrigger, LiveLimit;
  }
}
