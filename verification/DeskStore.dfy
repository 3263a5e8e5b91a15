/** The tables as the engine updates them in place. Every method is tied to the machine of DeskRuns: a pass of the
    posting, entry or exit loop is the path of that machine's steps over the rows the loop reads. */
module DeskStore {
  import opened Basics
  import opened Clock
  import opened Calls
  import opened Sizing
  import opened Ledger
  import opened Desk
  import opened DeskInvariant
  import opened DeskRuns

  class Store {
    var start: Option<real>
    var calls: CallTable
    var tightenings: seq<Tightening>
    var proposals: seq<Proposal>
    var postings: map<nat, Posting>
    var outcomes: seq<Outcome>
    var fills: seq<Fill>
    var marks: map<string, real>
    var resolutions: map<nat, How>

    function Tables(): Db
      reads this
    {
      Db(start, calls, tightenings, proposals, postings, outcomes, fills, marks, resolutions)
    }

    constructor ()
      ensures Tables() == EMPTY
    {
      start, calls, tightenings, proposals, postings := None, [], [], [], map[];
      outcomes, fills, marks, resolutions := [], [], map[], map[];
    }

    /** Start equity plus the running total over every fill. */
    method Cash(startEquity: real) returns (total: real)
      ensures total == startEquity + CashFlow(proposals, fills)
    {
      total := startEquity;
      for k := 0 to |fills|
        invariant total == startEquity + CashFlow(proposals, fills[..k])
      {
        var f := fills[k];
        if f.proposal < |proposals| {
          var value := Notional(f.price, f.quantity, proposals[f.proposal].instrument);
          total := total + if f.side.Sell? then value else -value;
        }
        assert fills[..k + 1] == fills[..k] + [f];
        CashFlowAfter(proposals, fills[..k], f);
      }
      assert fills[..|fills|] == fills;
    }

    /** Open positions at their marks. */
    method HoldPositions(positions: seq<Position>) returns (holdings: seq<Holding>)
      ensures holdings == PositionHoldings(calls, marks, positions)
    {
      hide Notional, CurrentCall;
      holdings := [];
      for k := 0 to |positions|
        invariant holdings == PositionHoldings(calls, marks, positions[..k])
      {
        var p := positions[k];
        var current := CurrentCallId(calls, p.callId);
        var price := if p.symbol in marks then marks[p.symbol] else p.entryPrice;
        var isOption := !p.instrument.Shares?;
        holdings := holdings + [Holding(
          p.underlying, Notional(price, p.quantity, p.instrument), BenchmarkOf(calls, current), isOption,
          if isOption then Notional(p.entryPrice, p.quantity, p.instrument) else 0.0, false)];
        assert positions[..k + 1] == positions[..k] + [p];
        Snoc(positions[..k], p);
      }
      assert positions[..|positions|] == positions;
    }

    /** Every committed proposal but the excluded one, at its worst case. */
    method HoldPledges(exclude: Option<nat>) returns (holdings: seq<Holding>, committed: real)
      ensures holdings == PledgeHoldings(calls, proposals, Settled(Tables()) + Excluded(exclude))
      ensures committed == Commitment(proposals, Settled(Tables()) + Excluded(exclude))
    {
      hide Notional, Done, Bought;
      var settled := Settled(Tables());
      ghost var out := settled + Excluded(exclude);
      holdings, committed := [], 0.0;
      for id := 0 to |proposals|
        invariant committed == Commitment(proposals[..id], out)
        invariant holdings == PledgeHoldings(calls, proposals[..id], out)
      {
        assert proposals[..id + 1][..id] == proposals[..id];
        if id !in settled && exclude != Some(id) {
          var q := proposals[id];
          var worst := Worst(q);
          var isOption := !q.instrument.Shares?;
          committed := committed + worst;
          holdings := holdings + [Holding(
            q.underlying, worst, BenchmarkOf(calls, q.callId), isOption, if isOption then worst else 0.0, true)];
        }
      }
      assert proposals[..|proposals|] == proposals;
    }

    method Worth(holdings: seq<Holding>) returns (worth: real)
      ensures worth == Total(holdings, MarketValue())
    {
      worth := 0.0;
      for k := 0 to |holdings|
        invariant worth == Total(holdings[..k], MarketValue())
      {
        worth := worth + holdings[k].marketValue;
        assert holdings[..k + 1] == holdings[..k] + [holdings[k]];
        Snoc(holdings[..k], holdings[k]);
      }
      assert holdings[..|holdings|] == holdings;
    }

    /** The book as sizing sees it: cash net of commitments, and equity the commitments do not move. */
    method DeriveBook(exclude: Option<nat>) returns (r: Result<BookState>)
      ensures r == Book(Tables(), exclude)
    {
      hide OpenPositions, PositionHoldings, PledgeHoldings, CashFlow, Commitment, Settled, Total;
      if start.None? {
        return Refused(BookNotStarted);
      }
      var held := HoldPositions(OpenPositions(proposals, fills));
      var pledged, committed := HoldPledges(exclude);
      var cash := Cash(start.value);
      cash := cash - committed;
      var worth := Worth(held + pledged);
      r := Ok(BookState(cash + worth, cash, held + pledged));
    }

    /** Money one side of a proposal's fills moved. */
    method SideAmount(fs: seq<Fill>, side: Side, i: Instrument) returns (total: real)
      ensures total == Amount(fs, side, i)
    {
      hide Notional;
      total := 0.0;
      for k := 0 to |fs|
        invariant total == Amount(fs[..k], side, i)
      {
        if fs[k].side == side {
          total := total + Notional(fs[k].price, fs[k].quantity, i);
        }
        assert fs[..k + 1] == fs[..k] + [fs[k]];
        Snoc(fs[..k], fs[k]);
      }
      assert fs[..|fs|] == fs;
    }

    method ClosedTradeList() returns (out: seq<ClosedTrade>)
      ensures out == ClosedTrades(proposals, fills)
    {
      hide Amount, FillsOf, Quantity;
      out := [];
      for id := 0 to |proposals|
        invariant out == ClosedTrades(proposals[..id], fills)
      {
        var fs := FillsOf(fills, id);
        assert proposals[..id + 1][..id] == proposals[..id];
        if Quantity(fs, Buy) > 0 && Quantity(fs, Buy) == Quantity(fs, Sell) {
          var buy := SideAmount(fs, Buy, proposals[id].instrument);
          var sell := SideAmount(fs, Sell, proposals[id].instrument);
          out := out + [ClosedTrade(id, buy, sell)];
        }
      }
      assert proposals[..|proposals|] == proposals;
    }

    /** True only for the caller that marks the proposal first; a later message id never replaces it. */
    method ClaimPost(id: nat, posting: Posting) returns (claimed: bool)
      modifies this`postings
      ensures claimed == (id !in old(postings))
      ensures Tables() == Apply(old(Tables()), MarkPosted(id, posting))
    {
      claimed := id !in postings;
      if claimed {
        postings := postings[id := posting];
      }
    }
  
    method RecordOutcome(o: Outcome)
      modifies this`outcomes
      ensures Tables() == Apply(old(Tables()), Close(o))
    {
      outcomes := outcomes + [o];
    }

    /** One unposted proposal: expired, or posted behind its deadline. */
    method PostOne(cfg: Config, id: nat, message: Option<string>, window: Option<Window>, now: Time) returns (posted: bool)
      requires id < |proposals| && id !in postings
      modifies this`outcomes, this`postings
      ensures postings.Keys == old(postings).Keys + if posted then {id} else {}
      ensures Tables() == Apply(old(Tables()), PostWrite(old(Tables()), cfg, id, message, window, now))
    {
      posted := false;
      if Day(proposals[id].createdAt) < Day(now) {
        RecordOutcome(Outcome(id, now, Expired, false, false));
        return;
      }
      if now >= PostingEnd(cfg, Day(now), window) {
        RecordOutcome(Outcome(id, now, Expired, false, false));
        return;
      }
      if message.None? {
        RecordOutcome(Outcome(id, now, Expired, false, false));
        return;
      }
      posted := ClaimPost(id, Posting(now, VetoDeadline(cfg, now), message));
    }

    /** The posting loop is the path of one posting step per unposted proposal, oldest first. */
    method PostProposals(
        cfg: Config, messages: nat -> Option<string>, window: Option<Window>, now: Time,
        ghost pledge: Option<Pledge>, ghost clock: Time)
        returns (posted: seq<nat>, ghost steps: seq<Step>, ghost states: seq<State>)
      requires SaneRules(cfg.rules) && Inv(cfg, Tables(), pledge, clock) && clock <= now
      modifies this`outcomes, this`postings
      ensures Path(cfg, steps, states) && states[0] == State(old(Tables()), pledge, clock)
      ensures states[|steps|].db == Tables() && Good(cfg, states[|steps|])
      ensures |steps| == |Unposted(old(Tables()))|
      ensures forall k :: 0 <= k < |steps| ==>
                steps[k] == PostStep(Unposted(old(Tables()))[k], messages(Unposted(old(Tables()))[k]), window, now)
      ensures postings.Keys == old(postings).Keys + set id | id in posted
    {
      hide Inv, Next, Unposted, PostWrite, Apply;
      var ids := Unposted(Tables());
      UnpostedIds(Tables());
      posted, steps, states := [], [], [State(Tables(), pledge, clock)];
      for k := 0 to |ids|
        invariant |steps| == k && Path(cfg, steps, states) && states[0] == State(old(Tables()), pledge, clock)
        invariant states[k].db == Tables() && states[k].pledge == pledge && states[k].clock <= now
        invariant Inv(cfg, Tables(), pledge, states[k].clock)
        invariant forall m :: 0 <= m < k ==> steps[m] == PostStep(ids[m], messages(ids[m]), window, now)
        invariant forall m :: k <= m < |ids| ==> ids[m] in Unposted(Tables())
        invariant postings.Keys == old(postings).Keys + set id | id in posted
      {
        var id := ids[k];
        UnpostedIds(Tables());
        ghost var s := states[k];
        ghost var step := PostStep(id, messages(id), window, now);
        var claimed := PostOne(cfg, id, messages(id), window, now);
        if claimed {
          posted := posted + [id];
        }
        ghost var s' := State(Tables(), pledge, now);
        TakePost(cfg, s, id, messages(id), window, now, s');
        PathSnoc(cfg, steps, states, step, s');
        steps, states := steps + [step], states + [s'];
      }
    }
  
    /** Expire every committed proposal made on an earlier day: a path of expiry steps, after which none is left. */
    method ExpireStale(cfg: Config, now: Time, ghost pledge: Option<Pledge>, ghost clock: Time)
        returns (expired: seq<nat>, ghost steps: seq<Step>, ghost states: seq<State>)
      requires SaneRules(cfg.rules) && Inv(cfg, Tables(), pledge, clock) && clock <= now
      modifies this`outcomes
      ensures Path(cfg, steps, states) && states[0] == State(old(Tables()), pledge, clock)
      ensures states[|steps|].db == Tables() && Good(cfg, states[|steps|])
      ensures |steps| == |expired| && forall k :: 0 <= k < |steps| ==> steps[k] == ExpireStep(expired[k], now)
      ensures forall id: nat :: id in Committed(Tables()) <==>
                                id in Committed(old(Tables())) && Day(proposals[id].createdAt) >= Day(now)
    {
      hide Inv, Next, Committed, Apply;
      var ids := Committed(Tables());
      CommittedIds(Tables());
      expired, steps, states := [], [], [State(Tables(), pledge, clock)];
      for k := 0 to |ids|
        invariant Path(cfg, steps, states) && states[0] == State(old(Tables()), pledge, clock)
        invariant |steps| == |expired| && forall m :: 0 <= m < |steps| ==> steps[m] == ExpireStep(expired[m], now)
        invariant states[|steps|].db == Tables() && states[|steps|].pledge == pledge && states[|steps|].clock <= now
        invariant Inv(cfg, Tables(), pledge, states[|steps|].clock)
        invariant forall m :: k <= m < |ids| ==> ids[m] in Committed(Tables())
        invariant forall m :: 0 <= m < k ==> (ids[m] in Committed(Tables()) <==> Day(proposals[ids[m]].createdAt) >= Day(now))
        invariant forall id: nat :: id in Committed(Tables()) ==> id in ids
      {
        var id := ids[k];
        if Day(proposals[id].createdAt) < Day(now) {
          ghost var s := states[|steps|];
          RecordOutcome(Outcome(id, now, Expired, false, false));
          ghost var s' := State(Tables(), pledge, now);
          TakeExpiry(cfg, s, id, now, s');
          PathSnoc(cfg, steps, states, ExpireStep(id, now), s');
          expired, steps, states := expired + [id], steps + [ExpireStep(id, now)], states + [s'];
        }
      }
    }

    // ----- the PM -----

    method EnsureBook(equity: real)
      modifies this`start
      ensures Tables() == Apply(old(Tables()), StartBook(equity))
    {
      if start.None? {
        start := Some(equity);
      }
    }

    /** A call: refused with nothing written, or the call and, when it is funded, its proposal appended. */
    method SubmitCall(cfg: Config, cin: CallIn, pin: PmInput, now: Time) returns (r: Result<nat>)
      modifies this`calls, this`proposals
      ensures r.Refused? ==> Submit(old(Tables()), cfg, cin, pin, now) == Refused(r.why) && Tables() == old(Tables())
      ensures r.Ok? ==> Submit(old(Tables()), cfg, cin, pin, now).Ok? && r.value == |old(calls)|
      ensures r.Ok? ==>
                var p := Submit(old(Tables()), cfg, cin, pin, now).value;
                AllInsertable(old(Tables()), CommitWrites(old(Tables()), p))
                && Tables() == ApplyAll(old(Tables()), CommitWrites(old(Tables()), p))
    {
      var checked := Submit(Tables(), cfg, cin, pin, now);
      if checked.Refused? {
        return Refused(checked.why);
      }
      var p := checked.value;
      SubmittedCallStandsAlone(cfg, Tables(), cin, pin, now);
      CommitApplied(Tables(), p);
      var id := |calls|;
      calls := calls + [p.call];
      if p.plan.Some? {
        proposals := proposals + [ProposalFor(id, p)];
      }
      r := Ok(id);
    }

    lemma SubmittedCallStandsAlone(cfg: Config, db: Db, cin: CallIn, pin: PmInput, now: Time)
      requires Submit(db, cfg, cin, pin, now).Ok?
      ensures Submit(db, cfg, cin, pin, now).value.call.parent.None?
    {
      hide Fund, OpenCallFor, CallsMadeOn, CheckLevels;
    }

    method ExtendCall(cfg: Config, id: nat, l: Levels, feed: Feed, now: Time) returns (r: Result<nat>)
      modifies this`calls
      ensures r.Refused? ==> Extend(old(Tables()), cfg, id, l, feed, now) == Refused(r.why) && Tables() == old(Tables())
      ensures r.Ok? ==> Extend(old(Tables()), cfg, id, l, feed, now).Ok? && r.value == |old(calls)|
      ensures r.Ok? ==> Tables() == Apply(old(Tables()), AddCall(Extend(old(Tables()), cfg, id, l, feed, now).value))
    {
      var c := Extend(Tables(), cfg, id, l, feed, now);
      if c.Refused? {
        return Refused(c.why);
      }
      r := Ok(|calls|);
      calls := calls + [c.value];
    }

    method TightenCall(id: nat, invalidation: real, feed: Feed, now: Time) returns (r: Result<real>)
      modifies this`tightenings
      ensures r.Refused? ==> TightenTo(old(Tables()), id, invalidation, feed, now) == Refused(r.why) && Tables() == old(Tables())
      ensures r.Ok? ==> TightenTo(old(Tables()), id, invalidation, feed, now) == Ok(Tightening(id, now, r.value))
      ensures r.Ok? ==> Tables() == Apply(old(Tables()), Tighten(Tightening(id, now, r.value)))
    {
      var t := TightenTo(Tables(), id, invalidation, feed, now);
      if t.Refused? {
        return Refused(t.why);
      }
      tightenings := tightenings + [t.value];
      r := Ok(t.value.invalidation);
    }

    // ----- the watch -----

    method Skip(id: nat, kind: OutcomeKind, r: Reaction, now: Time)
      modifies this`outcomes
      ensures AllInsertable(old(Tables()), SkipRow(id, kind, r, now))
      ensures Tables() == ApplyAll(old(Tables()), SkipRow(id, kind, r, now))
    {
      ghost var row := Outcome(id, now, kind, r.veto, r.approve);
      ApplyOne(Tables(), Close(row));
      RecordOutcome(Outcome(id, now, kind, r.veto, r.approve));
    }

    /** A due proposal against its quotes: priced out, thesis broken, over a cap at the real price, or filled. */
    method FillEntry(
        cfg: Config, id: nat, q: Option<Quote>, u: Option<Quote>, r: Reaction, measured: map<string, real>, now: Time)
      requires id < |proposals| && proposals[id].callId < |calls|
      modifies this`outcomes, this`fills
      ensures AllInsertable(old(Tables()), FillWrites(old(Tables()), cfg, id, q, u, r, measured, now))
      ensures Tables() == ApplyAll(old(Tables()), FillWrites(old(Tables()), cfg, id, q, u, r, measured, now))
    {
      hide Book, CheckBook, CorrelatedWith, EntryLevels, Notional, CurrentCall;
      var p := proposals[id];
      if q.None? || q.value.ask <= 0.0 || q.value.ask > p.maxEntry {
        Skip(id, SkippedPrice, r, now);
        return;
      }
      var ask := q.value.ask;
      var stop := EntryLevels(Tables(), cfg, id, ask, u);
      if stop.Refused? {
        Skip(id, SkippedInvalid, r, now);
        return;
      }
      var book := DeriveBook(Some(id));
      if book.Refused? {
        return;
      }
      var current := CurrentCallId(calls, p.callId);
      var order := Order(p.underlying, calls[current].benchmark, Notional(ask, p.quantity, p.instrument), !p.instrument.Shares?);
      var correlated := CorrelatedWith(book.value, p.underlying, measured, cfg.rules);
      var verdict := CheckBook(book.value, order, correlated, cfg.rules, cfg.reserve);
      if verdict.Refused? {
        Skip(id, SkippedInvalid, r, now);
        return;
      }
      var buy := EntryFill(id, p.quantity, ask, stop.value, now);
      var row := Outcome(id, now, Filled, r.veto, r.approve);
      ApplyOne(Tables(), Enter(buy, row));
      fills := fills + [buy];
      outcomes := outcomes + [row];
    }

    method EntryOne(cfg: Config, id: nat, e: EntryInput, now: Time)
      requires id < |proposals| && proposals[id].callId < |calls|
      modifies this`outcomes, this`fills
      ensures AllInsertable(old(Tables()), EntryWrites(old(Tables()), cfg, id, e, now))
      ensures Tables() == ApplyAll(old(Tables()), EntryWrites(old(Tables()), cfg, id, e, now))
    {
      hide FillWrites;
      if id !in postings {
        return;
      }
      var p, posting := proposals[id], postings[id];
      if Day(posting.at) < Day(now) || TimeOfDay(now) >= ENTRY_CUTOFF {
        ApplyOne(Tables(), Expire(id, now));
        RecordOutcome(Outcome(id, now, Expired, false, false));
        return;
      }
      var r := EffectiveReaction(posting, e.reaction);
      if !(r.approve || now >= posting.deadline) {
        return;
      }
      match e.feed
      case Unauthorized =>
        Skip(id, SkippedBlind, r, now);
      case Unavailable =>
      case Answered(quotes) =>
        var q, u := Find(quotes, p.symbol), Find(quotes, p.underlying);
        if (q.Some? && Stale(q.value, now)) || (u.Some? && Stale(u.value, now)) {
          return;
        }
        FillEntry(cfg, id, q, u, r, e.measured, now);
    }

    /** The entry loop is the path of one entry step per pending proposal, oldest first. */
    method Entries(
        cfg: Config, inputs: nat -> EntryInput, window: Option<Window>, now: Time, ghost pledge: Option<Pledge>, ghost clock: Time)
        returns (ghost steps: seq<Step>, ghost states: seq<State>)
      requires SaneRules(cfg.rules) && Inv(cfg, Tables(), pledge, clock) && clock <= now && InSession(window, now)
      requires forall id :: SaneFeed(inputs(id).feed)
      modifies this`outcomes, this`fills
      ensures Path(cfg, steps, states) && states[0] == State(old(Tables()), pledge, clock)
      ensures states[|steps|].db == Tables() && Good(cfg, states[|steps|])
      ensures states[|steps|].pledge == pledge && states[|steps|].clock <= now
      ensures |steps| == |Pending(old(Tables()))|
      ensures forall k :: 0 <= k < |steps| ==>
                steps[k] == EntryStep(Pending(old(Tables()))[k], inputs(Pending(old(Tables()))[k]), window, now)
    {
      hide Inv, Next, Pending, EntryWrites, ApplyAll, AllInsertable, InSession, SaneFeed;
      var ids := Pending(Tables());
      PendingIds(Tables());
      ProposalsHaveCalls(cfg, Tables(), pledge, clock);
      steps, states := [], [State(Tables(), pledge, clock)];
      for k := 0 to |ids|
        invariant |steps| == k && Path(cfg, steps, states) && states[0] == State(old(Tables()), pledge, clock)
        invariant states[k].db == Tables() && states[k].pledge == pledge && states[k].clock <= now
        invariant Inv(cfg, Tables(), pledge, states[k].clock)
        invariant proposals == old(proposals) && calls == old(calls)
        invariant forall m :: 0 <= m < k ==> steps[m] == EntryStep(ids[m], inputs(ids[m]), window, now)
        invariant forall m :: k <= m < |ids| ==> ids[m] in Pending(Tables())
      {
        var id := ids[k];
        ghost var s := states[k];
        EntryOne(cfg, id, inputs(id), now);
        ghost var s' := State(Tables(), pledge, now);
        TakeEntry(cfg, s, id, inputs(id), window, now, s');
        PathSnoc(cfg, steps, states, EntryStep(id, inputs(id), window, now), s');
        steps, states := steps + [EntryStep(id, inputs(id), window, now)], states + [s'];
      }
    }

    lemma ProposalsHaveCalls(cfg: Config, db: Db, pledge: Option<Pledge>, clock: Time)
      requires Inv(cfg, db, pledge, clock)
      ensures forall id :: 0 <= id < |db.proposals| ==> db.proposals[id].callId < |db.calls|
    {
      forall id | 0 <= id < |db.proposals| ensures db.proposals[id].callId < |db.calls| {
        assert ProposalOk(db, db.proposals[id]);
      }
    }

    method ExitOne(cfg: Config, pos: Position, e: ExitInput, now: Time)
      requires pos.callId < |calls|
      modifies this`marks, this`fills
      ensures AllInsertable(old(Tables()), ExitWrites(old(Tables()), cfg, pos, e, now))
      ensures Tables() == ApplyAll(old(Tables()), ExitWrites(old(Tables()), cfg, pos, e, now))
    {
      hide ExitReason, CurrentCall, EffectiveInvalidation;
      if e.underlying.None? || e.own.None? || Stale(e.underlying.value, now) || Stale(e.own.value, now) {
        return;
      }
      var u, t := e.underlying.value, e.own.value;
      ghost var before := Tables();
      var price := if pos.instrument.Shares? then u.last else t.bid;
      ghost var mark := MarkPrice(pos.symbol, price);
      ApplyOne(before, mark);
      marks := marks[pos.symbol := price];
      var current := CurrentCallId(calls, pos.callId);
      var call := calls[current];
      var invalidation := EffectiveInvalidation(calls, tightenings, current);
      var hit := ExitReason(pos, call.direction.Up?, call.target, invalidation, u, t, e.dte, cfg.rules);
      if hit.None? && TimeOfDay(now) >= RESOLVED_EXIT_FROM && current in resolutions {
        hit := Some((CallResolved, t.bid));
      }
      if hit.None? && e.wanted {
        hit := Some((PmExit, t.bid));
      }
      if hit.Some? {
        var sale := Fill(pos.proposal, now, Sell, pos.quantity, hit.value.1, hit.value.0, None, None);
        ApplyTwo(before, mark, Leave(sale));
        fills := fills + [sale];
      }
    }

    /** The exit loop is the path of one exit step per open position, oldest first. */
    method Exits(
        cfg: Config, inputs: nat -> ExitInput, window: Option<Window>, now: Time, ghost pledge: Option<Pledge>, ghost clock: Time)
        returns (ghost steps: seq<Step>, ghost states: seq<State>)
      requires SaneRules(cfg.rules) && Inv(cfg, Tables(), pledge, clock) && clock <= now && InSession(window, now)
      requires forall id :: SaneInput(inputs(id))
      modifies this`marks, this`fills
      ensures Path(cfg, steps, states) && states[0] == State(old(Tables()), pledge, clock)
      ensures states[|steps|].db == Tables() && Good(cfg, states[|steps|])
      ensures states[|steps|].pledge == pledge && states[|steps|].clock <= now
      ensures |steps| == |OpenPositions(old(proposals), old(fills))|
      ensures forall k :: 0 <= k < |steps| ==>
                var pos := OpenPositions(old(proposals), old(fills))[k];
                steps[k] == ExitStep(pos, inputs(pos.proposal), window, now)
    {
      hide Inv, Next, OpenPositions, ExitWrites, ApplyAll, AllInsertable, InSession;
      var ps := OpenPositions(proposals, fills);
      OpenPositionsAreSound(cfg, Tables(), pledge, clock);
      steps, states := [], [State(Tables(), pledge, clock)];
      for k := 0 to |ps|
        invariant |steps| == k && Path(cfg, steps, states) && states[0] == State(old(Tables()), pledge, clock)
        invariant states[k].db == Tables() && states[k].pledge == pledge && states[k].clock <= now && calls == old(calls)
        invariant Inv(cfg, Tables(), pledge, states[k].clock)
        invariant forall m :: 0 <= m < k ==> steps[m] == ExitStep(ps[m], inputs(ps[m].proposal), window, now)
        invariant forall m :: k <= m < |ps| ==> ps[m] in OpenPositions(proposals, fills)
      {
        var pos := ps[k];
        ghost var s := states[k];
        ExitOne(cfg, pos, inputs(pos.proposal), now);
        ghost var s' := State(Tables(), pledge, now);
        TakeExit(cfg, s, pos, inputs(pos.proposal), window, now, s');
        PathSnoc(cfg, steps, states, ExitStep(pos, inputs(pos.proposal), window, now), s');
        steps, states := steps + [ExitStep(pos, inputs(pos.proposal), window, now)], states + [s'];
      }
    }

    /** desk_watch: nothing outside regular hours, else the entry loop and then the exit loop, one path in all. */
    method Watch(
        cfg: Config, entries: nat -> EntryInput, exits: nat -> ExitInput, window: Option<Window>, now: Time,
        ghost pledge: Option<Pledge>, ghost clock: Time)
        returns (outsideRth: bool, ghost steps: seq<Step>, ghost states: seq<State>)
      requires SaneRules(cfg.rules) && Inv(cfg, Tables(), pledge, clock) && clock <= now
      requires (forall id :: SaneFeed(entries(id).feed)) && (forall id :: SaneInput(exits(id)))
      modifies this`outcomes, this`fills, this`marks
      ensures outsideRth == !InSession(window, now)
      ensures outsideRth ==> Tables() == old(Tables()) && steps == []
      ensures Path(cfg, steps, states) && states[0] == State(old(Tables()), pledge, clock)
      ensures states[|steps|].db == Tables() && Inv(cfg, Tables(), pledge, now)
      ensures !outsideRth ==> WatchSteps(old(Tables()), steps, states, entries, exits, window, now)
    {
      hide Inv, Next, Pending, OpenPositions;
      outsideRth := PhaseFor(now, ActiveWindow(window, now)) != Rth;
      if outsideRth {
        steps, states := [], [State(Tables(), pledge, clock)];
        TimeKeepsInv(cfg, Tables(), pledge, clock, now);
        return;
      }
      ghost var es, mids := Entries(cfg, entries, window, now, pledge, clock);
      ghost var xs, ends := Exits(cfg, exits, window, now, pledge, mids[|es|].clock);
      PathConcat(cfg, es, mids, xs, ends);
      steps, states := es + xs, mids + ends[1..];
      assert states[|es|] == mids[|es|];
      TimeKeepsInv(cfg, Tables(), pledge, ends[|xs|].clock, now);
    }

    /** Every proposal pending at the start gets its entry step, oldest first, and then every position open by then its
        exit step, oldest first. */
    ghost predicate WatchSteps(
        before: Db, steps: seq<Step>, states: seq<State>, entries: nat -> EntryInput, exits: nat -> ExitInput,
        window: Option<Window>, now: Time)
    {
      var n := |Pending(before)|;
      && n <= |steps| < |states|
      && (forall k :: 0 <= k < n ==> steps[k] == EntryStep(Pending(before)[k], entries(Pending(before)[k]), window, now))
      && var open := OpenPositions(states[n].db.proposals, states[n].db.fills);
         && |steps| == n + |open|
         && forall k :: 0 <= k < |open| ==> steps[n + k] == ExitStep(open[k], exits(open[k].proposal), window, now)
    }

    ghost predicate SaneInput(e: ExitInput) {
      (e.underlying.Some? ==> SaneQuote(e.underlying.value)) && (e.own.Some? ==> SaneQuote(e.own.value))
    }

    lemma OpenPositionsAreSound(cfg: Config, db: Db, pledge: Option<Pledge>, clock: Time)
      requires Inv(cfg, db, pledge, clock)
      ensures OnePerProposal(OpenPositions(db.proposals, db.fills))
      ensures forall k :: 0 <= k < |OpenPositions(db.proposals, db.fills)| ==>
                OpenPositions(db.proposals, db.fills)[k].callId < |db.calls|
    {
      forall id | 0 <= id < |db.proposals|
        ensures FillShape(FillsOf(db.fills, id), db.proposals[id].quantity) && 0 < db.proposals[id].quantity
      {
        assert ProposalOk(db, db.proposals[id]);
      }
      PositionsAreDistinct(db.proposals, db.fills);
      var ps := OpenPositions(db.proposals, db.fills);
      forall k | 0 <= k < |ps| ensures ps[k].callId < |db.calls| {
        assert ps[k] in ps;
        PositionIsItsBuy(db, ps[k]);
        assert ProposalOk(db, db.proposals[ps[k].proposal]);
      }
    }
  }
}
