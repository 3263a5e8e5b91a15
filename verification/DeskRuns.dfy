/** The desk as a state machine over its tables, and what holds in every state of every run. A PM call is split into
    its check and its commit, with watch, posting and scoring steps free to run in between; only one PM call is in
    flight at a time. */
module DeskRuns {
  import opened Basics
  import opened Money
  import opened Clock
  import opened Calls
  import opened Sizing
  import opened Ledger
  import opened Desk
  import opened DeskInvariant

  datatype State = State(db: Db, pledge: Option<Pledge>, clock: Time)

  datatype Step =
    | Begin(equity: real, now: Time)
    | Check(cin: CallIn, pin: PmInput, now: Time)
    | Commit(now: Time)
    | ExtendStep(callId: nat, levels: Levels, feed: Feed, now: Time)
    | TightenStep(callId: nat, invalidation: real, feed: Feed, now: Time)
    | ExpireStep(id: nat, now: Time)
    | PostStep(id: nat, message: Option<string>, window: Option<Window>, now: Time)
    | EntryStep(id: nat, entry: EntryInput, window: Option<Window>, now: Time)
    | ExitStep(pos: Position, exit: ExitInput, window: Option<Window>, now: Time)
    | ScoreStep(callId: nat, how: How, now: Time)

  predicate InSession(window: Option<Window>, now: Time) { PhaseFor(now, ActiveWindow(window, now)) == Rth }

  /** When a step can happen: the clock does not go back, quotes are not negative, and the row it works on is in the
      list its loop reads. */
  ghost predicate Enabled(cfg: Config, s: State, step: Step) {
    s.clock <= step.now &&
    match step
    case Begin(_, _) => s.pledge.None?
    case Check(_, pin, _) => s.pledge.None? && SaneFeed(pin.feed) && SaneFeed(pin.optionFeed)
    case Commit(_) => s.pledge.Some?
    case ExtendStep(_, _, feed, _) => s.pledge.None? && SaneFeed(feed)
    case TightenStep(_, _, feed, _) => s.pledge.None? && SaneFeed(feed)
    case ExpireStep(id, now) => id in Committed(s.db) && Day(s.db.proposals[id].createdAt) < Day(now)
    case PostStep(id, _, _, _) => id in Unposted(s.db)
    case EntryStep(id, e, window, now) =>
      id in Pending(s.db) && s.db.proposals[id].callId < |s.db.calls| && SaneFeed(e.feed) && InSession(window, now)
    case ExitStep(pos, e, window, now) =>
      && pos in OpenPositions(s.db.proposals, s.db.fills) && pos.callId < |s.db.calls| && InSession(window, now)
      && (e.underlying.Some? ==> SaneQuote(e.underlying.value)) && (e.own.Some? ==> SaneQuote(e.own.value))
    case ScoreStep(callId, _, _) => callId < |s.db.calls|
  }

  ghost function Writes(cfg: Config, s: State, step: Step): seq<Write>
    requires Enabled(cfg, s, step)
  {
    match step
    case Begin(equity, _) => [StartBook(equity)]
    case Check(_, _, _) => []
    case Commit(_) => CommitWrites(s.db, s.pledge.value)
    case ExtendStep(id, l, feed, now) =>
      var c := Extend(s.db, cfg, id, l, feed, now);
      if c.Ok? then [AddCall(c.value)] else []
    case TightenStep(id, invalidation, feed, now) =>
      var t := TightenTo(s.db, id, invalidation, feed, now);
      if t.Ok? then [Tighten(t.value)] else []
    case ExpireStep(id, now) => [Expire(id, now)]
    case PostStep(id, message, window, now) => [PostWrite(s.db, cfg, id, message, window, now)]
    case EntryStep(id, e, _, now) => EntryWrites(s.db, cfg, id, e, now)
    case ExitStep(pos, e, _, now) => ExitWrites(s.db, cfg, pos, e, now)
    case ScoreStep(id, how, _) => [Resolve(id, how)]
  }

  ghost function PledgeAfter(cfg: Config, s: State, step: Step): Option<Pledge>
    requires Enabled(cfg, s, step)
  {
    match step
    case Check(cin, pin, now) =>
      var r := Submit(s.db, cfg, cin, pin, now);
      if r.Ok? then Some(r.value) else None
    case Commit(_) => None
    case _ => s.pledge
  }

  ghost predicate Next(cfg: Config, s: State, step: Step, s': State) {
    && Enabled(cfg, s, step)
    && AllInsertable(s.db, Writes(cfg, s, step))
    && s' == State(ApplyAll(s.db, Writes(cfg, s, step)), PledgeAfter(cfg, s, step), step.now)
  }

  const EMPTY := Db(None, [], [], [], map[], [], [], map[], map[])

  /** Consecutive steps: one more state than steps. */
  ghost predicate Path(cfg: Config, steps: seq<Step>, states: seq<State>) {
    && |states| == |steps| + 1
    && forall i :: 0 <= i < |steps| ==> Next(cfg, states[i], steps[i], states[i + 1])
  }

  /** A run: a path from empty tables. */
  ghost predicate Run(cfg: Config, steps: seq<Step>, states: seq<State>) {
    Path(cfg, steps, states) && states[0].db == EMPTY && states[0].pledge.None?
  }

  ghost predicate Good(cfg: Config, s: State) { Inv(cfg, s.db, s.pledge, s.clock) }

  // ----- every step's writes are justified -----

  lemma EffectiveIsPositive(db: Db, ts: seq<Tightening>, id: nat)
    requires CallsOk(db) && id < |db.calls| && forall t :: t in ts ==> 0.0 < t.invalidation
    ensures 0.0 < EffectiveInvalidation(db.calls, ts, id)
  {
    if ts != [] {
      assert ts[|ts| - 1] in ts;
      EffectiveIsPositive(db, ts[..|ts| - 1], id);
    }
  }

  lemma PlanIsPositive(cfg: Config, book: BookState, cin: CallIn, pin: PmInput, last: real, now: Time)
    requires SaneRules(cfg.rules) && SaneFeed(pin.optionFeed)
    ensures PlanShares(cfg, book, cin, pin, last).Ok? ==>
              var p := PlanShares(cfg, book, cin, pin, last).value;
              0 < p.quantity && 0.0 < p.maxEntry && p.instrument.Shares? && cin.direction.Up?
    ensures PlanOption(cfg, book, cin, pin, now).Ok? ==>
              var p := PlanOption(cfg, book, cin, pin, now).value;
              0 < p.quantity && 0.0 < p.maxEntry && !p.instrument.Shares?
  {
    var o := PlanOption(cfg, book, cin, pin, now);
    if o.Ok? {
      assert pin.chain.osi in [pin.chain.osi];
      var ask := pin.optionFeed.quotes[pin.chain.osi].ask;
      ScaleUp(0.0, ask, 1.0 + cfg.rules.maxEntryChasePct / 100.0);
      assert 0.0 <= o.value.maxEntry;
    }
  }

  /** A funded call that passed its checks has its money and its place in the book as it stands. */
  lemma SubmittedPledgeIsOk(cfg: Config, db: Db, cin: CallIn, pin: PmInput, now: Time)
    requires SaneRules(cfg.rules) && SaneFeed(pin.feed) && SaneFeed(pin.optionFeed)
    requires Submit(db, cfg, cin, pin, now).Ok?
    ensures PledgeOk(cfg, db, now, Submit(db, cfg, cin, pin, now).value)
  {
    hide Notional, Total;
    var p := Submit(db, cfg, cin, pin, now).value;
    if p.plan.Some? {
      EquityIgnoresCommitments(db, None);
      PlanIsPositive(cfg, Book(db, None).value, cin, pin, p.call.refPrice, now);
    }
  }

  /** An entry the watch takes is inside the limit and carries its stop. */
  lemma TakenEntryIsSound(
      cfg: Config, db: Db, id: nat, q: Option<Quote>, u: Option<Quote>, measured: map<string, real>, now: Time)
    requires SaneRules(cfg.rules) && CallsOk(db) && id < |db.proposals| && db.proposals[id].callId < |db.calls|
    requires Decide(db, cfg, id, q, u, measured).Take?
    ensures var d := Decide(db, cfg, id, q, u, measured);
            && 0.0 < d.price <= db.proposals[id].maxEntry
            && CarriesStop(cfg, db.proposals[id].instrument, EntryFill(id, db.proposals[id].quantity, d.price, d.stop, now))
  {
    hide EntryStop, LimitBelow, Book, CheckBook, CorrelatedWith, Notional;
    var p := db.proposals[id];
    var current := CurrentCall(db.calls, p.callId);
    EffectiveIsPositive(db, db.tightenings, current);
    if p.instrument.Shares? {
      StopGeometry(q.value.ask, if p.atrPct.Some? then p.atrPct.value else 0.0,
                   EffectiveInvalidation(db.calls, db.tightenings, current), cfg.rules);
    }
  }

  lemma DecisionKinds(cfg: Config, db: Db, id: nat, q: Option<Quote>, u: Option<Quote>, measured: map<string, real>)
    requires id < |db.proposals| && db.proposals[id].callId < |db.calls|
    ensures Decide(db, cfg, id, q, u, measured).Skip? ==> !Decide(db, cfg, id, q, u, measured).kind.Filled?
  {
    hide EntryLevels, Book, CheckBook, CorrelatedWith, Notional;
  }

  lemma PendingIsCommitted(db: Db, id: nat)
    requires FillsOk(db) && id < |db.proposals| && id !in Done(db.outcomes)
    ensures id in Committed(db)
  {
  }

  lemma FillIsJustified(
      cfg: Config, s: State, id: nat, q: Option<Quote>, u: Option<Quote>, r: Reaction, measured: map<string, real>, now: Time)
    requires SaneRules(cfg.rules) && Good(cfg, s) && s.clock <= now && id in Committed(s.db) && id in s.db.postings
    requires s.db.proposals[id].callId < |s.db.calls|
    requires Day(now) <= Day(s.db.postings[id].at) && TimeOfDay(now) < ENTRY_CUTOFF
    requires r.approve || s.db.postings[id].deadline <= now
    ensures var ws := FillWrites(s.db, cfg, id, q, u, r, measured, now);
            ws == [] || (|ws| == 1 && Justified(cfg, s.db, now, ws[0]) && (ws[0].Close? || ws[0].Enter?))
  {
    hide CallsOk, RowsOk, FillsOk, MoneyOk, PledgeOk, CarriesStop, Decide;
    var db := s.db;
    var d := Decide(db, cfg, id, q, u, measured);
    DecisionKinds(cfg, db, id, q, u, measured);
    if d.Take? {
      var w := FillWrites(db, cfg, id, q, u, r, measured, now)[0];
      TakenEntryIsSound(cfg, db, id, q, u, measured, now);
      DayMonotone(db.postings[id].at, now);
      var after := Apply(db, w);
      assert w.row in after.outcomes;
      assert r.approve ==> ApprovedEntry(after, id);
      assert GoodEntry(cfg, after, w.buy);
    }
  }

  lemma EntryIsJustified(cfg: Config, s: State, id: nat, e: EntryInput, now: Time)
    requires SaneRules(cfg.rules) && Good(cfg, s) && s.clock <= now && id in Pending(s.db)
    ensures s.db.proposals[id].callId < |s.db.calls|
    ensures var ws := EntryWrites(s.db, cfg, id, e, now);
            ws == [] || (|ws| == 1 && Justified(cfg, s.db, now, ws[0]) && (ws[0].Close? || ws[0].Enter?))
  {
    hide FillsOk, LifeOk, MoneyOk, PledgeOk, FillWrites;
    var db := s.db;
    assert ProposalOk(db, db.proposals[id]);
    PendingIsCommitted(db, id);
    if id in db.postings && Day(now) <= Day(db.postings[id].at) && TimeOfDay(now) < ENTRY_CUTOFF && e.feed.Answered? {
      var r := EffectiveReaction(db.postings[id], e.reaction);
      var p, quotes := db.proposals[id], e.feed.quotes;
      if r.approve || now >= db.postings[id].deadline {
        FillIsJustified(cfg, s, id, Find(quotes, p.symbol), Find(quotes, p.underlying), r, e.measured, now);
      }
    }
  }

  lemma PositionOfShape(id: nat, p: Proposal, fs: seq<Fill>, pos: Position)
    requires FillShape(fs, p.quantity) && 0 < p.quantity && pos in PositionsOf(id, p, fs)
    ensures |fs| == 1 && pos ==
            Position(id, p.callId, p.instrument, p.symbol, p.underlying, p.quantity, fs[0].price, fs[0].at,
                     fs[0].stopTrigger, fs[0].stopLimit)
  {
    if |fs| == 1 {
      assert fs == [fs[0]];
      OneBuyIsOnePosition(id, p, fs[0]);
    } else if |fs| == 2 {
      assert fs == [fs[0], fs[1]];
      BoughtAndSoldIsFlat(id, p, fs[0], fs[1]);
    }
  }

  /** An open position is its proposal's one buy. */
  lemma PositionIsItsBuy(db: Db, pos: Position)
    requires RowsOk(db) && FillsOk(db) && pos in OpenPositions(db.proposals, db.fills)
    ensures pos.proposal < |db.proposals| && |FillsOf(db.fills, pos.proposal)| == 1
    ensures var p, b := db.proposals[pos.proposal], FillsOf(db.fills, pos.proposal)[0];
            && b in db.fills && b.side.Buy? && b.proposal == pos.proposal
            && pos == Position(pos.proposal, p.callId, p.instrument, p.symbol, p.underlying, p.quantity, b.price, b.at,
                               b.stopTrigger, b.stopLimit)
  {
    PositionsInTable(db.proposals, db.fills);
    var id := pos.proposal;
    var fs := FillsOf(db.fills, id);
    assert ProposalOk(db, db.proposals[id]) && FillShape(fs, db.proposals[id].quantity);
    PositionOfShape(id, db.proposals[id], fs, pos);
    BoughtHasFills(db.fills, id);
    assert fs[0] in fs;
  }

  lemma SalePriceIsNotNegative(cfg: Config, db: Db, pos: Position, u: Quote, t: Quote, e: ExitInput, now: Time)
    requires CallsOk(db) && pos.callId < |db.calls| && SaneQuote(u) && SaneQuote(t)
    ensures var hit := ExitHit(db, cfg, pos, u, t, e, now);
            hit.Some? ==> 0.0 <= hit.value.1
  {
    EffectiveIsPositive(db, db.tightenings, CurrentCall(db.calls, pos.callId));
  }

  lemma ExitIsJustified(cfg: Config, s: State, pos: Position, e: ExitInput, now: Time)
    requires Good(cfg, s) && pos in OpenPositions(s.db.proposals, s.db.fills) && pos.callId < |s.db.calls|
    requires (e.underlying.Some? ==> SaneQuote(e.underlying.value)) && (e.own.Some? ==> SaneQuote(e.own.value))
    ensures var ws := ExitWrites(s.db, cfg, pos, e, now);
            || ws == []
            || (|ws| == 1 && ws[0].MarkPrice?)
            || (|ws| == 2 && ws[0].MarkPrice? && ws[1].Leave? && Justified(cfg, Apply(s.db, ws[0]), now, ws[1]))
  {
    hide CallsOk, RowsOk, FillsOk, LifeOk, MoneyOk, PledgeOk, ExitHit, OpenPositions;
    PositionIsItsBuy(s.db, pos);
    var ws := ExitWrites(s.db, cfg, pos, e, now);
    if ws != [] {
      SalePriceIsNotNegative(cfg, s.db, pos, e.underlying.value, e.own.value, e, now);
    }
  }

  lemma PostIsJustified(cfg: Config, s: State, id: nat, message: Option<string>, window: Option<Window>, now: Time)
    requires Good(cfg, s) && s.clock <= now && id in Unposted(s.db)
    ensures Justified(cfg, s.db, now, PostWrite(s.db, cfg, id, message, window, now))
    ensures !PostWrite(s.db, cfg, id, message, window, now).AddProposal?
  {
    PendingIsCommitted(s.db, id);
    DayMonotone(s.db.proposals[id].createdAt, now);
  }

  // ----- every step keeps the invariant -----

  lemma AcceptedLevelsStand(d: Direction, last: real, target: real, invalidation: real, rules: Rules)
    requires CheckLevels(d, last, target, invalidation, rules).Ok?
    ensures if d.Up? then target > last > invalidation else target < last < invalidation
  {
  }

  lemma ExtensionStands(db: Db, cfg: Config, id: nat, l: Levels, feed: Feed, now: Time)
    requires Extend(db, cfg, id, l, feed, now).Ok?
    ensures LevelsStand(Extend(db, cfg, id, l, feed, now).value)
  {
    hide CheckLevels, HeldBy, OpenPositions, ExtensionOf, Stale;
    var c := Extend(db, cfg, id, l, feed, now).value;
    AcceptedLevelsStand(c.direction, c.refPrice, c.target, c.invalidation, cfg.rules);
  }

  lemma PmStepIsJustified(cfg: Config, s: State, step: Step)
    requires Good(cfg, s) && Enabled(cfg, s, step) && (step.Begin? || step.ExtendStep? || step.TightenStep?)
    ensures AllJustified(cfg, s.db, step.now, Writes(cfg, s, step)) && NoFunding(Writes(cfg, s, step))
  {
    hide CallsOk, RowsOk, FillsOk, LifeOk, MoneyOk, PledgeOk, CheckLevels, HeldBy, Stale, LevelsStand;
    match step
    case Begin(equity, now) => JustifiedOne(cfg, s.db, now, StartBook(equity));
    case ExtendStep(id, l, feed, now) =>
      var c := Extend(s.db, cfg, id, l, feed, now);
      if c.Ok? {
        ExtensionStands(s.db, cfg, id, l, feed, now);
        JustifiedOne(cfg, s.db, now, AddCall(c.value));
      }
    case TightenStep(id, invalidation, feed, now) =>
      var t := TightenTo(s.db, id, invalidation, feed, now);
      if t.Ok? {
        JustifiedOne(cfg, s.db, now, Tighten(t.value));
      }
  }

  lemma WatchStepIsJustified(cfg: Config, s: State, step: Step)
    requires SaneRules(cfg.rules) && Good(cfg, s) && Enabled(cfg, s, step) && (step.EntryStep? || step.ExitStep?)
    ensures AllJustified(cfg, s.db, step.now, Writes(cfg, s, step)) && NoFunding(Writes(cfg, s, step))
  {
    hide CallsOk, RowsOk, FillsOk, LifeOk, MoneyOk, PledgeOk, EntryWrites, ExitWrites;
    var ws := Writes(cfg, s, step);
    match step
    case EntryStep(id, e, _, now) =>
      EntryIsJustified(cfg, s, id, e, now);
      if ws != [] {
        assert ws == [ws[0]];
        JustifiedOne(cfg, s.db, now, ws[0]);
      }
    case ExitStep(pos, e, _, now) =>
      ExitIsJustified(cfg, s, pos, e, now);
      if |ws| == 2 {
        assert ws == [ws[0], ws[1]];
        JustifiedTwo(cfg, s.db, now, ws[0], ws[1]);
      } else if |ws| == 1 {
        assert ws == [ws[0]];
        JustifiedOne(cfg, s.db, now, ws[0]);
      }
  }

  /** Every step but a commit makes only justified writes that fund nothing. */
  lemma StepIsJustified(cfg: Config, s: State, step: Step)
    requires SaneRules(cfg.rules) && Good(cfg, s) && Enabled(cfg, s, step) && !step.Commit?
    ensures AllJustified(cfg, s.db, step.now, Writes(cfg, s, step)) && NoFunding(Writes(cfg, s, step))
  {
    hide CallsOk, RowsOk, LifeOk, MoneyOk, PledgeOk, EntryWrites, ExitWrites, PostWrite, Extend, TightenTo;
    match step
    case Check(_, _, _) =>
    case ExpireStep(id, now) => JustifiedOne(cfg, s.db, now, Expire(id, now));
    case PostStep(id, message, window, now) =>
      PostIsJustified(cfg, s, id, message, window, now);
      JustifiedOne(cfg, s.db, now, PostWrite(s.db, cfg, id, message, window, now));
    case EntryStep(_, _, _, _) => WatchStepIsJustified(cfg, s, step);
    case ExitStep(_, _, _, _) => WatchStepIsJustified(cfg, s, step);
    case ScoreStep(id, how, now) => JustifiedOne(cfg, s.db, now, Resolve(id, how));
    case _ => PmStepIsJustified(cfg, s, step);
  }

  lemma ApplyTwo(db: Db, a: Write, b: Write)
    requires Insertable(db, a) && Insertable(Apply(db, a), b)
    ensures AllInsertable(db, [a, b]) && ApplyAll(db, [a, b]) == Apply(Apply(db, a), b)
  {
    assert [a, b][1..] == [b] && [b][1..] == [];
    assert AllInsertable(Apply(db, a), [b]);
    assert ApplyAll(Apply(db, a), [b]) == ApplyAll(Apply(Apply(db, a), b), []);
  }

  /** A commit appends the call and, when it is funded, its proposal; nothing else. */
  lemma CommitApplied(db: Db, p: Pledge)
    requires p.call.parent.None?
    ensures AllInsertable(db, CommitWrites(db, p))
    ensures ApplyAll(db, CommitWrites(db, p)) ==
            db.(calls := db.calls + [p.call],
                proposals := db.proposals + if p.plan.None? then [] else [ProposalFor(|db.calls|, p)])
  {
    var add := AddCall(p.call);
    if p.plan.Some? {
      ApplyTwo(db, add, AddProposal(ProposalFor(|db.calls|, p)));
      assert CommitWrites(db, p) == [add, AddProposal(ProposalFor(|db.calls|, p))];
    } else {
      assert CommitWrites(db, p) == [add] && [add][1..] == [];
      assert ApplyAll(Apply(db, add), []) == Apply(db, add);
    }
  }

  lemma CommitIsJustified(cfg: Config, s: State, now: Time)
    requires s.pledge.Some? && PledgeOk(cfg, s.db, now, s.pledge.value) && RowsOk(s.db) && FillsOk(s.db)
    ensures Justified(cfg, s.db, now, AddCall(s.pledge.value.call))
    ensures s.pledge.value.plan.Some? ==>
              Justified(cfg, Apply(s.db, AddCall(s.pledge.value.call)), now,
                        AddProposal(ProposalFor(|s.db.calls|, s.pledge.value)))
  {
    hide RowsOk, FillsOk;
    if s.pledge.value.plan.Some? {
      WriteMoney(cfg, s.db, now, AddCall(s.pledge.value.call));
    }
  }

  lemma CommitKeepsGood(cfg: Config, s: State, now: Time)
    requires Good(cfg, s) && s.clock <= now && s.pledge.Some?
    ensures AllInsertable(s.db, CommitWrites(s.db, s.pledge.value))
    ensures Inv(cfg, ApplyAll(s.db, CommitWrites(s.db, s.pledge.value)), None, now)
  {
    hide CallsOk, RowsOk, FillsOk, LifeOk, MoneyOk, PledgeOk, Apply;
    var p := s.pledge.value;
    var add := AddCall(p.call);
    TimeKeepsInv(cfg, s.db, s.pledge, s.clock, now);
    CommitIsJustified(cfg, s, now);
    WriteKeepsInv(cfg, s.db, s.pledge, s.clock, now, add);
    if p.plan.Some? {
      var fund := AddProposal(ProposalFor(|s.db.calls|, p));
      WriteKeepsInv(cfg, Apply(s.db, add), None, now, now, fund);
      ApplyTwo(s.db, add, fund);
      assert CommitWrites(s.db, p) == [add, fund];
    } else {
      assert CommitWrites(s.db, p) == [add] && [add][1..] == [];
    }
  }

  /** A step keeps the invariant; and only a commit can lower cash net of commitments. */
  lemma StepKeepsGood(cfg: Config, s: State, step: Step, s': State)
    requires SaneRules(cfg.rules) && Good(cfg, s) && Next(cfg, s, step, s')
    ensures Good(cfg, s')
    ensures s.db.start.Some? && !step.Commit? ==> s'.db.start == s.db.start && NetCash(s.db) <= NetCash(s'.db)
  {
    if step.Commit? {
      CommitKeepsGood(cfg, s, step.now);
    } else {
      hide CallsOk, RowsOk, FillsOk, LifeOk, MoneyOk, PledgeOk, NetCash, Submit, Writes;
      StepIsJustified(cfg, s, step);
      WritesKeepInv(cfg, s.db, s.pledge, s.clock, step.now, Writes(cfg, s, step));
      if step.Check? {
        CheckKeepsGood(cfg, s, step, s');
      }
    }
  }

  lemma CheckKeepsGood(cfg: Config, s: State, step: Step, s': State)
    requires SaneRules(cfg.rules) && Good(cfg, s) && step.Check? && Next(cfg, s, step, s')
    ensures Good(cfg, s')
  {
    hide CallsOk, RowsOk, FillsOk, LifeOk, MoneyOk, PledgeOk, Submit;
    TimeKeepsInv(cfg, s.db, s.pledge, s.clock, step.now);
    if Submit(s.db, cfg, step.cin, step.pin, step.now).Ok? {
      SubmittedPledgeIsOk(cfg, s.db, step.cin, step.pin, step.now);
    }
  }

  /** No reference stops a step: every row that an enabled step of a good state names in a write is there by then. */
  lemma EnabledStepsCanBeTaken(cfg: Config, s: State, step: Step)
    requires SaneRules(cfg.rules) && Good(cfg, s) && Enabled(cfg, s, step)
    ensures AllInsertable(s.db, Writes(cfg, s, step)) && AllReferToRows(s.db, Writes(cfg, s, step))
  {
    hide CallsOk, RowsOk, FillsOk, LifeOk, MoneyOk, PledgeOk;
    if step.Commit? {
      CommitKeepsGood(cfg, s, step.now);
      CommitRefers(s.db, s.pledge.value);
    } else {
      hide Writes;
      StepIsJustified(cfg, s, step);
      WritesKeepInv(cfg, s.db, s.pledge, s.clock, step.now, Writes(cfg, s, step));
      AllJustifiedRefer(cfg, s.db, step.now, Writes(cfg, s, step));
    }
  }

  lemma CommitRefers(db: Db, p: Pledge)
    requires AllInsertable(db, CommitWrites(db, p))
    ensures AllReferToRows(db, CommitWrites(db, p))
  {
    var ws := CommitWrites(db, p);
    if p.plan.Some? {
      assert ws[1..] == [AddProposal(ProposalFor(|db.calls|, p))] && ws[1..][1..] == [];
      assert AllReferToRows(Apply(Apply(db, ws[0]), ws[1]), []);
      assert AllReferToRows(Apply(db, ws[0]), ws[1..]);
    } else {
      assert ws[1..] == [];
    }
  }

  lemma EmptyTablesAreGood(cfg: Config, clock: Time)
    ensures Good(cfg, State(EMPTY, None, clock))
  {
  }

  /** The invariant holds in every state of every run. */
  lemma {:induction false} EveryStateIsGood(cfg: Config, steps: seq<Step>, states: seq<State>, i: nat)
    requires SaneRules(cfg.rules) && Run(cfg, steps, states) && i < |states|
    ensures Good(cfg, states[i])
  {
    hide Good, Next;
    if i == 0 {
      EmptyTablesAreGood(cfg, states[0].clock);
      assert states[0] == State(EMPTY, None, states[0].clock);
    } else {
      EveryStateIsGood(cfg, steps, states, i - 1);
      StepKeepsGood(cfg, states[i - 1], steps[i - 1], states[i]);
    }
  }

  // ----- passes over a list of rows -----

  lemma PathSnoc(cfg: Config, steps: seq<Step>, states: seq<State>, step: Step, s: State)
    requires Path(cfg, steps, states) && Next(cfg, states[|steps|], step, s)
    ensures Path(cfg, steps + [step], states + [s])
  {
    hide Next;
    var ss, ts := steps + [step], states + [s];
    forall i | 0 <= i < |ss| ensures Next(cfg, ts[i], ss[i], ts[i + 1]) {
      if i < |steps| {
        assert Next(cfg, states[i], steps[i], states[i + 1]);
      }
    }
  }

  lemma PathConcat(cfg: Config, a: seq<Step>, as_: seq<State>, b: seq<Step>, bs: seq<State>)
    requires Path(cfg, a, as_) && Path(cfg, b, bs) && as_[|a|] == bs[0]
    ensures Path(cfg, a + b, as_ + bs[1..])
  {
    hide Next;
    var ss, ts := a + b, as_ + bs[1..];
    forall i | 0 <= i < |ss| ensures Next(cfg, ts[i], ss[i], ts[i + 1]) {
      if i < |a| {
        assert Next(cfg, as_[i], a[i], as_[i + 1]);
      } else {
        assert Next(cfg, bs[i - |a|], b[i - |a|], bs[i - |a| + 1]);
      }
    }
  }

  lemma ApplyOne(db: Db, w: Write)
    requires Insertable(db, w)
    ensures AllInsertable(db, [w]) && ApplyAll(db, [w]) == Apply(db, w)
  {
    assert [w][1..] == [];
    assert ApplyAll(Apply(db, w), []) == Apply(db, w);
  }

  /** Taking one entry step: it closes its own proposal at most, and the rest of the list stays pending. */
  lemma TakeEntry(cfg: Config, s: State, id: nat, e: EntryInput, window: Option<Window>, now: Time, s': State)
    requires SaneRules(cfg.rules) && Good(cfg, s) && s.clock <= now && id in Pending(s.db)
    requires SaneFeed(e.feed) && InSession(window, now)
    requires s.db.proposals[id].callId < |s.db.calls| && AllInsertable(s.db, EntryWrites(s.db, cfg, id, e, now))
    requires s' == State(ApplyAll(s.db, EntryWrites(s.db, cfg, id, e, now)), s.pledge, now)
    ensures Next(cfg, s, EntryStep(id, e, window, now), s') && Good(cfg, s')
    ensures s'.db.proposals == s.db.proposals && s'.db.calls == s.db.calls
    ensures forall other: nat :: other in Pending(s.db) && other != id ==> other in Pending(s'.db)
  {
    hide Good, EntryWrites, Done, InSession, SaneFeed;
    StepKeepsGood(cfg, s, EntryStep(id, e, window, now), s');
    EntryIsJustified(cfg, s, id, e, now);
    EntryNamesItsRow(cfg, s.db, id, e, now);
    var ws := EntryWrites(s.db, cfg, id, e, now);
    if ws != [] {
      assert ws == [ws[0]];
      ApplyOne(s.db, ws[0]);
      DoneAfter(s.db.outcomes, ws[0].row);
    }
  }

  /** Taking one exit step: it marks and sells its own position at most, and the rest of the list stays open. */
  lemma TakeExit(cfg: Config, s: State, pos: Position, e: ExitInput, window: Option<Window>, now: Time, s': State)
    requires SaneRules(cfg.rules) && Good(cfg, s) && s.clock <= now && InSession(window, now)
    requires pos in OpenPositions(s.db.proposals, s.db.fills) && pos.callId < |s.db.calls|
    requires (e.underlying.Some? ==> SaneQuote(e.underlying.value)) && (e.own.Some? ==> SaneQuote(e.own.value))
    requires AllInsertable(s.db, ExitWrites(s.db, cfg, pos, e, now))
    requires s' == State(ApplyAll(s.db, ExitWrites(s.db, cfg, pos, e, now)), s.pledge, now)
    ensures Next(cfg, s, ExitStep(pos, e, window, now), s') && Good(cfg, s')
    ensures s'.db.calls == s.db.calls
    ensures forall other :: other in OpenPositions(s.db.proposals, s.db.fills) && other.proposal != pos.proposal ==>
              other in OpenPositions(s'.db.proposals, s'.db.fills)
  {
    hide Good, ExitWrites, InSession, OpenPositions;
    StepKeepsGood(cfg, s, ExitStep(pos, e, window, now), s');
    ExitKeepsCalls(cfg, s.db, pos, e, now);
    forall other | other in OpenPositions(s.db.proposals, s.db.fills) && other.proposal != pos.proposal
      ensures other in OpenPositions(s'.db.proposals, s'.db.fills)
    {
      ExitTouchesOnlyItsRow(cfg, s, ExitStep(pos, e, window, now), s', other);
    }
  }

  predicate OnlyMarksAndSales(ws: seq<Write>) { forall k :: 0 <= k < |ws| ==> ws[k].MarkPrice? || ws[k].Leave? }

  lemma {:induction false} MarksAndSalesKeepCalls(db: Db, ws: seq<Write>)
    requires AllInsertable(db, ws) && OnlyMarksAndSales(ws)
    ensures ApplyAll(db, ws).calls == db.calls
    decreases |ws|
  {
    if ws != [] {
      assert ws[0].MarkPrice? || ws[0].Leave?;
      MarksAndSalesKeepCalls(Apply(db, ws[0]), ws[1..]);
    }
  }

  lemma ExitKeepsCalls(cfg: Config, db: Db, pos: Position, e: ExitInput, now: Time)
    requires pos.callId < |db.calls| && AllInsertable(db, ExitWrites(db, cfg, pos, e, now))
    ensures ApplyAll(db, ExitWrites(db, cfg, pos, e, now)).calls == db.calls
  {
    hide ExitHit, Stale, AllInsertable, ApplyAll;
    MarksAndSalesKeepCalls(db, ExitWrites(db, cfg, pos, e, now));
  }

  lemma EntryNamesItsRow(cfg: Config, db: Db, id: nat, e: EntryInput, now: Time)
    requires id < |db.proposals| && db.proposals[id].callId < |db.calls|
    ensures var ws := EntryWrites(db, cfg, id, e, now);
            forall k :: 0 <= k < |ws| && (ws[k].Close? || ws[k].Enter?) ==> ws[k].row.proposal == id
  {
    hide Decide;
  }

  /** Taking one expiry step: it settles its own proposal, and the rest of the list stays committed. */
  lemma TakeExpiry(cfg: Config, s: State, id: nat, now: Time, s': State)
    requires SaneRules(cfg.rules) && Good(cfg, s) && s.clock <= now && id in Committed(s.db)
    requires Day(s.db.proposals[id].createdAt) < Day(now)
    requires s' == State(Apply(s.db, Expire(id, now)), s.pledge, now)
    ensures Next(cfg, s, ExpireStep(id, now), s') && Good(cfg, s')
    ensures forall other: nat :: other in Committed(s'.db) <==> other in Committed(s.db) && other != id
  {
    hide Good, Done, Bought;
    ApplyOne(s.db, Expire(id, now));
    StepKeepsGood(cfg, s, ExpireStep(id, now), s');
    DoneAfter(s.db.outcomes, Outcome(id, now, Expired, false, false));
  }

  /** Taking one posting step: it closes or posts its own proposal and leaves the rest of the list unposted. */
  lemma TakePost(cfg: Config, s: State, id: nat, message: Option<string>, window: Option<Window>, now: Time, s': State)
    requires SaneRules(cfg.rules) && Good(cfg, s) && s.clock <= now && id in Unposted(s.db)
    requires s' == State(Apply(s.db, PostWrite(s.db, cfg, id, message, window, now)), s.pledge, now)
    ensures Next(cfg, s, PostStep(id, message, window, now), s') && Good(cfg, s')
    ensures forall other: nat :: other in Unposted(s.db) && other != id ==> other in Unposted(s'.db)
  {
    hide Good, Done, PostingEnd, VetoDeadline;
    var w := PostWrite(s.db, cfg, id, message, window, now);
    ApplyOne(s.db, w);
    StepKeepsGood(cfg, s, PostStep(id, message, window, now), s');
    if w.Close? {
      DoneAfter(s.db.outcomes, w.row);
    }
  }

  /** An exit step sells its own position at most, so the rest of the list stays open. */
  lemma ExitTouchesOnlyItsRow(cfg: Config, s: State, step: Step, s': State, other: Position)
    requires Good(cfg, s) && step.ExitStep? && Next(cfg, s, step, s')
    requires other in OpenPositions(s.db.proposals, s.db.fills) && other.proposal != step.pos.proposal
    ensures s'.db.proposals == s.db.proposals && s'.db.calls == s.db.calls
    ensures other in OpenPositions(s'.db.proposals, s'.db.fills)
  {
    hide Good, ExitHit, PositionsOf, OpenPositions, FillsOf, InSession, PledgeAfter;
    var ws := ExitWrites(s.db, cfg, step.pos, step.exit, step.now);
    PositionsInTable(s.db.proposals, s.db.fills);
    PositionsInTable(s.db.proposals, s'.db.fills);
    if |ws| == 1 {
      assert ws == [ws[0]];
      ApplyOne(s.db, ws[0]);
    } else if |ws| == 2 {
      assert ws == [ws[0], ws[1]];
      ApplyTwo(s.db, ws[0], ws[1]);
      assert s'.db.fills == s.db.fills + [ws[1].sale];
      FillsAfter(s.db.fills, ws[1].sale, other.proposal);
      assert FillsOf(s.db.fills, other.proposal) + [] == FillsOf(s.db.fills, other.proposal);
      assert other in PositionsOf(other.proposal, s.db.proposals[other.proposal], FillsOf(s'.db.fills, other.proposal));
    }
  }

  ghost predicate OnePerProposal(ps: seq<Position>) {
    forall i, j :: 0 <= i < j < |ps| ==> ps[i].proposal != ps[j].proposal
  }

  lemma {:induction false} PositionsAreDistinct(proposals: seq<Proposal>, fills: seq<Fill>)
    requires forall id :: 0 <= id < |proposals| ==> FillShape(FillsOf(fills, id), proposals[id].quantity) && 0 < proposals[id].quantity
    ensures OnePerProposal(OpenPositions(proposals, fills))
  {
    if proposals != [] {
      var id := |proposals| - 1;
      PositionsAreDistinct(proposals[..id], fills);
      PositionsInTable(proposals[..id], fills);
      var ps, qs := OpenPositions(proposals[..id], fills), PositionsOf(id, proposals[id], FillsOf(fills, id));
      AtMostOnePosition(id, proposals[id], FillsOf(fills, id));
      OnePerProposalAfter(ps, qs, id);
    }
  }

  lemma OnePerProposalAfter(ps: seq<Position>, qs: seq<Position>, id: nat)
    requires OnePerProposal(ps) && |qs| <= 1
    requires (forall p :: p in ps ==> p.proposal < id) && (forall q :: q in qs ==> q.proposal == id)
    ensures OnePerProposal(ps + qs)
  {
  }

  lemma AtMostOnePosition(id: nat, p: Proposal, fs: seq<Fill>)
    requires FillShape(fs, p.quantity) && 0 < p.quantity
    ensures |PositionsOf(id, p, fs)| <= 1 && forall q :: q in PositionsOf(id, p, fs) ==> q.proposal == id
  {
    if |fs| == 1 {
      assert fs == [fs[0]];
      OneBuyIsOnePosition(id, p, fs[0]);
    } else if |fs| == 2 {
      assert fs == [fs[0], fs[1]];
      BoughtAndSoldIsFlat(id, p, fs[0], fs[1]);
    }
  }

  // ----- the PM's tools as steps -----

  /** An accepted call is a check and then a commit: two steps of the machine, so what holds of runs holds of it. */
  lemma SubmitIsCheckThenCommit(cfg: Config, s: State, cin: CallIn, pin: PmInput, now: Time)
    requires SaneRules(cfg.rules) && Good(cfg, s) && s.pledge.None? && s.clock <= now
    requires SaneFeed(pin.feed) && SaneFeed(pin.optionFeed) && Submit(s.db, cfg, cin, pin, now).Ok?
    ensures var p := Submit(s.db, cfg, cin, pin, now).value;
            var checked := State(s.db, Some(p), now);
            && AllInsertable(s.db, CommitWrites(s.db, p))
            && var done := State(ApplyAll(s.db, CommitWrites(s.db, p)), None, now);
               Next(cfg, s, Check(cin, pin, now), checked) && Next(cfg, checked, Commit(now), done) && Good(cfg, done)
  {
    hide Submit, Inv, Apply, CommitWrites, SaneRules;
    var p := Submit(s.db, cfg, cin, pin, now).value;
    var checked := State(s.db, Some(p), now);
    assert Next(cfg, s, Check(cin, pin, now), checked);
    StepKeepsGood(cfg, s, Check(cin, pin, now), checked);
    CommitKeepsGood(cfg, checked, now);
  }

  /** An accepted extension or tightening is one step of the machine. */
  lemma PmToolIsAStep(cfg: Config, s: State, id: nat, l: Levels, invalidation: real, feed: Feed, now: Time)
    requires SaneRules(cfg.rules) && Good(cfg, s) && s.pledge.None? && s.clock <= now && SaneFeed(feed)
    ensures var c := Extend(s.db, cfg, id, l, feed, now);
            c.Ok? ==>
              && Insertable(s.db, AddCall(c.value))
              && var done := State(Apply(s.db, AddCall(c.value)), None, now);
                 Next(cfg, s, ExtendStep(id, l, feed, now), done) && Good(cfg, done)
    ensures var t := TightenTo(s.db, id, invalidation, feed, now);
            t.Ok? ==>
              && Insertable(s.db, Tighten(t.value))
              && var done := State(Apply(s.db, Tighten(t.value)), None, now);
                 Next(cfg, s, TightenStep(id, invalidation, feed, now), done) && Good(cfg, done)
  {
    hide Extend, TightenTo, Inv, Apply, SaneRules, SaneFeed;
    var c, t := Extend(s.db, cfg, id, l, feed, now), TightenTo(s.db, id, invalidation, feed, now);
    if c.Ok? {
      var step := ExtendStep(id, l, feed, now);
      EnabledStepsCanBeTaken(cfg, s, step);
      ApplyOne(s.db, AddCall(c.value));
      StepKeepsGood(cfg, s, step, State(Apply(s.db, AddCall(c.value)), None, now));
    }
    if t.Ok? {
      var step := TightenStep(id, invalidation, feed, now);
      EnabledStepsCanBeTaken(cfg, s, step);
      ApplyOne(s.db, Tighten(t.value));
      StepKeepsGood(cfg, s, step, State(Apply(s.db, Tighten(t.value)), None, now));
    }
  }
}
