/** What each desk operation decides to write (desk/pm.py, desk/post.py, desk/watch.py, desk/approval.py).
    Quotes, reactions, chains, correlations and post results come in as inputs. */
module Desk {
  import opened Basics
  import opened Money
  import opened Clock
  import opened Calls
  import opened Sizing
  import opened Ledger

  datatype Config = Config(
    rules: Rules, reserve: real, entryStart: int, entryEnd: int, benchmarks: set<string>)

  const ENTRY_CUTOFF := 15 * HOUR + 55 * MINUTE
  const RESOLVED_EXIT_FROM := 10 * HOUR
  const QUOTE_MAX_AGE := 300 * SECOND

  // ----- inputs from outside -----

  datatype Quote = Quote(last: real, bid: real, ask: real, time: Time)

  /** A quote read: the broker refused the token, failed otherwise, or answered. */
  datatype Feed = Unauthorized | Unavailable | Answered(quotes: map<string, Quote>)

  /** Reads a message's two emoji: a veto that was read counts; an approval only when both were read. */
  datatype Reaction = Reaction(veto: bool, approve: bool, unreadable: bool)

  function ReadReactions(vetoes: Option<bool>, approvals: Option<bool>): Reaction {
    Reaction(vetoes == Some(true), vetoes.Some? && approvals == Some(true), vetoes.None? || approvals.None?)
  }

  predicate Stale(q: Quote, now: Time) { now - q.time > QUOTE_MAX_AGE }

  function Find(feed: map<string, Quote>, symbol: string): Option<Quote> {
    if symbol in feed then Some(feed[symbol]) else None
  }

  ghost predicate SaneQuote(q: Quote) { 0.0 <= q.last && 0.0 <= q.bid && 0.0 <= q.ask }

  ghost predicate SaneFeed(feed: Feed) {
    feed.Answered? ==> forall s :: s in feed.quotes ==> SaneQuote(feed.quotes[s])
  }

  // ----- writes -----

  /** One write to the tables. `Enter` is the entry fill with its outcome row. */
  datatype Write =
    | StartBook(equity: real)
    | AddCall(call: Call)
    | AddProposal(proposal: Proposal)
    | MarkPosted(id: nat, posting: Posting)
    | Close(row: Outcome)
    | Enter(buy: Fill, row: Outcome)
    | Leave(sale: Fill)
    | MarkPrice(symbol: string, price: real)
    | Tighten(tightening: Tightening)
    | Resolve(callId: nat, how: How)

  /** Foreign keys: an extension references an earlier call. */
  predicate Insertable(db: Db, w: Write) {
    w.AddCall? && w.call.parent.Some? ==> w.call.parent.value < |db.calls|
  }

  function Apply(db: Db, w: Write): Db
    requires Insertable(db, w)
  {
    match w
    case StartBook(equity) => if db.start.Some? then db else db.(start := Some(equity))
    case AddCall(c) => db.(calls := db.calls + [c])
    case AddProposal(p) => db.(proposals := db.proposals + [p])
    case MarkPosted(id, posting) => if id in db.postings then db else db.(postings := db.postings[id := posting])
    case Close(row) => db.(outcomes := db.outcomes + [row])
    case Enter(buy, row) => db.(fills := db.fills + [buy], outcomes := db.outcomes + [row])
    case Leave(sale) => db.(fills := db.fills + [sale])
    case MarkPrice(symbol, price) => db.(marks := db.marks[symbol := price])
    case Tighten(t) => db.(tightenings := db.tightenings + [t])
    case Resolve(id, how) => if id in db.resolutions then db else db.(resolutions := db.resolutions[id := how])
  }

  /** The writes can be made one after another. */
  predicate AllInsertable(db: Db, ws: seq<Write>)
    decreases |ws|
  {
    ws != [] ==> Insertable(db, ws[0]) && AllInsertable(Apply(db, ws[0]), ws[1..])
  }

  function ApplyAll(db: Db, ws: seq<Write>): Db
    requires AllInsertable(db, ws)
    decreases |ws|
  {
    if ws == [] then db else ApplyAll(Apply(db, ws[0]), ws[1..])
  }

  // ----- the PM: pm.py -----

  function ParsePrice(d: real): Result<real> { if d <= 0.0 then Refused(BadPrice) else Ok(d) }

  function CheckHorizon(h: int, rules: Rules): Result<()> {
    if rules.horizonMin <= h <= rules.horizonMax then Ok(()) else Refused(BadHorizon)
  }

  function CheckLevels(d: Direction, last: real, target: real, invalidation: real, rules: Rules): Result<()> {
    if d.Up? && !(target > last > invalidation) then Refused(BadLevels)
    else if d.Down? && !(target < last < invalidation) then Refused(BadLevels)
    else if last == 0.0 then Refused(DivisionByZero)
    else if Abs(target - last) / last * 100.0 > rules.levelMaxDistancePct then Refused(LevelTooFar)
    else if Abs(invalidation - last) / last * 100.0 > rules.levelMaxDistancePct then Refused(LevelTooFar)
    else Ok(())
  }

  /** A fresh quote for every symbol wanted, in the order they are tested. */
  function FreshQuotes(feed: Feed, wanted: seq<string>, now: Time): (r: Result<map<string, Quote>>)
    ensures r.Ok? ==> feed == Answered(r.value) && forall s :: s in wanted ==> s in r.value && !Stale(r.value[s], now)
  {
    match feed
    case Unauthorized => Refused(Blind)
    case Unavailable => Refused(ReadFailed)
    case Answered(quotes) =>
      if wanted == [] then Ok(quotes)
      else if wanted[0] !in quotes then Refused(NoQuote)
      else if Stale(quotes[wanted[0]], now) then Refused(StaleQuote)
      else FreshQuotes(feed, wanted[1..], now)
  }

  /** Book names, other than the symbol itself, measured above the correlation threshold. */
  function CorrelatedWith(book: BookState, symbol: string, measured: map<string, real>, rules: Rules): set<string> {
    set h | h in book.holdings && h.symbol != symbol && h.symbol in measured
            && measured[h.symbol] > rules.correlationThreshold :: h.symbol
  }

  datatype CallIn = CallIn(
    symbol: string, direction: Direction, target: real, invalidation: real, horizon: int, conviction: int,
    benchmark: string, funding: Funding, maxEntry: Option<real>, optionSymbol: Option<string>, legacy: bool)

  datatype AdoptedPitch = AdoptedPitch(open: bool, symbol: string, direction: Direction)

  /** The option chain read: failed, or the contract among the candidates that the call named. */
  datatype ChainRead = ChainDown | NoMatch | Match(osi: string)

  datatype PmInput = PmInput(
    tradeable: set<string>, accountHolds: set<string>, pitch: Option<AdoptedPitch>, feed: Feed,
    measured: map<string, real>, atr: Option<real>, chain: ChainRead, optionFeed: Feed)

  datatype Plan = Plan(instrument: Instrument, symbol: string, quantity: int, maxEntry: real, atrPct: Option<real>)

  function PlanCost(p: Plan): real { Notional(p.maxEntry, p.quantity, p.instrument) }

  function PlanOrder(cin: CallIn, p: Plan): Order {
    Order(cin.symbol, cin.benchmark, PlanCost(p), !p.instrument.Shares?)
  }

  /** A price with the allowed chase on top. */
  function Chased(price: real, rules: Rules): real { price * (1.0 + rules.maxEntryChasePct / 100.0) }

  function PlanShares(cfg: Config, book: BookState, cin: CallIn, pin: PmInput, last: real): Result<Plan> {
    if !cin.direction.Up? then Refused(SharesNeedUp)
    else if cin.maxEntry.None? then Refused(NeedMaxEntry)
    else
      var maxEntry :- ParsePrice(cin.maxEntry.value);
      if maxEntry > Chased(last, cfg.rules) then Refused(Chase)
      else if pin.atr.None? then Refused(NoAtr)
      else if pin.atr.value > cfg.rules.maxDailyAtrPct then Refused(AtrCeiling)
      else if cin.invalidation >= maxEntry then Refused(InvalidationAboveEntry)
      else
        var qty :- ShareQuantity(cin.conviction, book.equity, maxEntry, cfg.rules);
        Ok(Plan(Shares, cin.symbol, qty, maxEntry, pin.atr))
  }

  function PlanOption(cfg: Config, book: BookState, cin: CallIn, pin: PmInput, now: Time): Result<Plan> {
    var want := if cin.direction.Up? then CallOption else PutOption;
    if cin.funding != (if cin.direction.Up? then FundCall else FundPut) then Refused(WrongInstrument)
    else if cin.optionSymbol.None? || cin.optionSymbol.value == "" then Refused(NeedOptionSymbol)
    else
      var _ :- ConvictionPct(false, cin.conviction, cfg.rules);
      if pin.chain.ChainDown? then Refused(ChainFailed)
      else if pin.chain.NoMatch? then Refused(NotACandidate)
      else
        var quotes :- FreshQuotes(pin.optionFeed, [pin.chain.osi], now);
        assert pin.chain.osi in [pin.chain.osi];
        var ceiling := Cents(Chased(quotes[pin.chain.osi].ask, cfg.rules));
        var maxEntry :- if cin.maxEntry.Some? then ParsePrice(cin.maxEntry.value) else Ok(ceiling);
        if maxEntry > ceiling then Refused(Chase)
        else
          var qty :- OptionQuantity(cin.conviction, book.equity, maxEntry, cfg.rules);
          Ok(Plan(want, pin.chain.osi, qty, maxEntry, None))
  }

  /** Size the call against the book as it stands and pass it through every cap at its worst case. */
  function Fund(db: Db, cfg: Config, cin: CallIn, pin: PmInput, last: real, now: Time): Result<Plan> {
    var _ :- ConvictionPct(cin.funding.FundShares?, cin.conviction, cfg.rules);
    var book :- Book(db, None);
    var plan :- if cin.funding.FundShares? then PlanShares(cfg, book, cin, pin, last)
                else PlanOption(cfg, book, cin, pin, now);
    var _ :- CheckBook(book, PlanOrder(cin, plan), CorrelatedWith(book, cin.symbol, pin.measured, cfg.rules),
                       cfg.rules, cfg.reserve);
    Ok(plan)
  }

  predicate OpenCallFor(
      calls: seq<Call>, resolutions: map<nat, How>, symbol: string, direction: Direction, legacy: bool)
  {
    exists i :: 0 <= i < |calls| && calls[i].symbol == symbol && calls[i].direction == direction
                && (calls[i].origin.Legacy? <==> legacy) && i !in resolutions
  }

  function CallsMadeOn(calls: seq<Call>, session: int): nat {
    if calls == [] then 0
    else
      var c := calls[|calls| - 1];
      CallsMadeOn(calls[..|calls| - 1], session) +
      (if c.session == session && !c.origin.Legacy? && c.parent.None? then 1 else 0)
  }

  /** A call that passed every test, with the proposal that will carry its money. */
  datatype Pledge = Pledge(call: Call, plan: Option<Plan>, at: Time)

  function NewCall(cin: CallIn, origin: Origin, q: map<string, Quote>, now: Time): Call
    requires cin.symbol in q && "SPY" in q && cin.benchmark in q
  {
    Call(now, Day(now), origin, None, cin.symbol, cin.direction, cin.target, cin.invalidation, cin.horizon,
         cin.conviction, cin.benchmark, q[cin.symbol].last, q["SPY"].last, q[cin.benchmark].last, cin.funding)
  }

  function Submit(db: Db, cfg: Config, cin: CallIn, pin: PmInput, now: Time): Result<Pledge> {
    if cin.benchmark !in cfg.benchmarks then Refused(BadBenchmark)
    else
      var _ :- CheckHorizon(cin.horizon, cfg.rules);
      var _ :- ParsePrice(cin.target);
      var _ :- ParsePrice(cin.invalidation);
      if cin.legacy then SubmitLegacy(db, cfg, cin, pin, now)
      else if cin.symbol !in pin.tradeable then Refused(NotTradeable)
      else if CallsMadeOn(db.calls, Day(now)) >= cfg.rules.maxNewCallsPerDay then Refused(CallsUsedUp)
      else if OpenCallFor(db.calls, db.resolutions, cin.symbol, cin.direction, false) then Refused(StillOpen)
      else if pin.pitch.Some? && !pin.pitch.value.open then Refused(PitchNotOpen)
      else if pin.pitch.Some? && (pin.pitch.value.symbol, pin.pitch.value.direction) != (cin.symbol, cin.direction) then
        Refused(PitchMismatch)
      else
        var wanted := [cin.symbol, "SPY", cin.benchmark];
        var q :- FreshQuotes(pin.feed, wanted, now);
        assert wanted[0] in wanted && wanted[1] in wanted && wanted[2] in wanted;
        var _ :- CheckLevels(cin.direction, q[cin.symbol].last, cin.target, cin.invalidation, cfg.rules);
        var call := NewCall(cin, if pin.pitch.Some? then FromPitch else FromPm, q, now);
        if cin.funding.Unfunded? then Ok(Pledge(call, None, now))
        else
          var plan :- Fund(db, cfg, cin, pin, q[cin.symbol].last, now);
          Ok(Pledge(call, Some(plan), now))
  }

  function SubmitLegacy(db: Db, cfg: Config, cin: CallIn, pin: PmInput, now: Time): Result<Pledge> {
    if !cin.funding.Unfunded? then Refused(LegacyFunding)
    else if cin.symbol !in pin.accountHolds then Refused(NotInAccount)
    else if OpenCallFor(db.calls, db.resolutions, cin.symbol, cin.direction, true) then Refused(StillOpen)
    else
      var wanted := [cin.symbol, "SPY", cin.benchmark];
      var q :- FreshQuotes(pin.feed, wanted, now);
      assert wanted[0] in wanted && wanted[1] in wanted && wanted[2] in wanted;
      var _ :- CheckLevels(cin.direction, q[cin.symbol].last, cin.target, cin.invalidation, cfg.rules);
      Ok(Pledge(NewCall(cin, Legacy, q, now), None, now))
  }

  function ProposalFor(callId: nat, p: Pledge): Proposal
    requires p.plan.Some?
  {
    var plan := p.plan.value;
    Proposal(callId, p.at, plan.instrument, plan.symbol, p.call.symbol, plan.quantity, plan.maxEntry, plan.atrPct)
  }

  function CommitWrites(db: Db, p: Pledge): seq<Write> {
    [AddCall(p.call)] + if p.plan.None? then [] else [AddProposal(ProposalFor(|db.calls|, p))]
  }

  predicate HeldBy(calls: CallTable, positions: seq<Position>, callId: nat) {
    exists p :: p in positions && CurrentCall(calls, p.callId) == callId
  }

  datatype Levels = Levels(target: real, invalidation: real, horizon: int)

  function Extend(db: Db, cfg: Config, id: nat, l: Levels, feed: Feed, now: Time): Result<Call> {
    if id >= |db.calls| || db.calls[id].origin.Legacy? then Refused(NoSuchCall)
    else
      var prior := db.calls[id];
      if prior.parent.Some? || ExtensionOf(db.calls, id).Some? then Refused(AlreadyExtended)
      else if id !in db.resolutions || !db.resolutions[id].Horizon? then Refused(NotAtHorizon)
      else if !HeldBy(db.calls, OpenPositions(db.proposals, db.fills), id) then Refused(NotHeld)
      else
        var _ :- CheckHorizon(l.horizon, cfg.rules);
        var _ :- ParsePrice(l.target);
        var _ :- ParsePrice(l.invalidation);
        var wanted := [prior.symbol, "SPY", prior.benchmark];
        var q :- FreshQuotes(feed, wanted, now);
        assert wanted[0] in wanted && wanted[1] in wanted && wanted[2] in wanted;
        var _ :- CheckLevels(prior.direction, q[prior.symbol].last, l.target, l.invalidation, cfg.rules);
        Ok(Call(now, Day(now), FromPm, Some(id), prior.symbol, prior.direction, l.target, l.invalidation, l.horizon,
                prior.conviction, prior.benchmark, q[prior.symbol].last, q["SPY"].last, q[prior.benchmark].last, prior.funding))
  }

  function TightenTo(db: Db, id: nat, invalidation: real, feed: Feed, now: Time): Result<Tightening> {
    if id >= |db.calls| then Refused(NoSuchCall)
    else
      var call := db.calls[id];
      if call.origin.Legacy? then Refused(LegacyStop)
      else if id in db.resolutions then Refused(AlreadyResolved)
      else if !HeldBy(db.calls, OpenPositions(db.proposals, db.fills), id) then Refused(NotHeld)
      else
        var new_ :- ParsePrice(invalidation);
        var cur := EffectiveInvalidation(db.calls, db.tightenings, id);
        var q :- FreshQuotes(feed, [call.symbol], now);
        assert call.symbol in [call.symbol];
        var last := q[call.symbol].last;
        if if call.direction.Up? then cur < new_ < last else last < new_ < cur then Ok(Tightening(id, now, new_))
        else Refused(NotTighter)
  }

  // ----- posting: post.py -----

  function VetoSpan(cfg: Config): int { cfg.rules.vetoMinutes * MINUTE }

  /** The last moment a proposal may be posted. */
  function PostingEnd(cfg: Config, day: int, window: Option<Window>): Time {
    var end := At(day, cfg.entryEnd);
    if window.Some? && window.value.date == day && window.value.close.Some? && window.value.close.value - VetoSpan(cfg) < end
    then window.value.close.value - VetoSpan(cfg)
    else end
  }

  function VetoDeadline(cfg: Config, now: Time): Time {
    var opens := At(Day(now), cfg.entryStart);
    (if now >= opens then now else opens) + VetoSpan(cfg)
  }

  function Expire(id: nat, now: Time): Write { Close(Outcome(id, now, Expired, false, false)) }

  /** One unposted proposal: expired when stale, late or unpostable, else posted behind its veto deadline. */
  function PostWrite(db: Db, cfg: Config, id: nat, message: Option<string>, window: Option<Window>, now: Time): Write
    requires id < |db.proposals|
  {
    if Day(db.proposals[id].createdAt) < Day(now) then Expire(id, now)
    else if now >= PostingEnd(cfg, Day(now), window) then Expire(id, now)
    else if message.None? then Expire(id, now)
    else MarkPosted(id, Posting(now, VetoDeadline(cfg, now), message))
  }

  // ----- the watch: watch.py -----

  datatype EntryInput = EntryInput(reaction: Reaction, feed: Feed, measured: map<string, real>)

  function EffectiveReaction(posting: Posting, r: Reaction): Reaction {
    if posting.message.None? || posting.message.value == "" then Reaction(false, false, false) else r
  }

  function SkipRow(id: nat, kind: OutcomeKind, r: Reaction, now: Time): seq<Write> {
    [Close(Outcome(id, now, kind, r.veto, r.approve))]
  }

  /** One pending proposal in one watch pass. */
  function EntryWrites(db: Db, cfg: Config, id: nat, e: EntryInput, now: Time): seq<Write>
    requires id < |db.proposals| && db.proposals[id].callId < |db.calls|
  {
    if id !in db.postings then []
    else
      var p, posting := db.proposals[id], db.postings[id];
      if Day(posting.at) < Day(now) || TimeOfDay(now) >= ENTRY_CUTOFF then [Expire(id, now)]
      else
        var r := EffectiveReaction(posting, e.reaction);
        if !(r.approve || now >= posting.deadline) then []
        else
          match e.feed
          case Unauthorized => SkipRow(id, SkippedBlind, r, now)
          case Unavailable => []
          case Answered(quotes) =>
            var q, u := Find(quotes, p.symbol), Find(quotes, p.underlying);
            if (q.Some? && Stale(q.value, now)) || (u.Some? && Stale(u.value, now)) then []
            else FillWrites(db, cfg, id, q, u, r, e.measured, now)
  }

  /** The stop the entry will carry: none for an option, a refusal when the thesis is already broken. */
  function EntryLevels(db: Db, cfg: Config, id: nat, ask: real, u: Option<Quote>): Result<Option<Stop>>
    requires id < |db.proposals| && db.proposals[id].callId < |db.calls|
  {
    var p := db.proposals[id];
    var current := CurrentCall(db.calls, p.callId);
    var invalidation := EffectiveInvalidation(db.calls, db.tightenings, current);
    if p.instrument.Shares? then
      if ask <= invalidation then Refused(StopAboveFill)
      else
        var stop :- EntryStop(ask, if p.atrPct.Some? then p.atrPct.value else 0.0, invalidation, cfg.rules);
        Ok(Some(stop))
    else if u.Some? && (if db.calls[current].direction.Up? then u.value.last <= invalidation else u.value.last >= invalidation)
    then Refused(StopAboveFill)
    else Ok(None)
  }

  /** What filling a proposal at a price asks of the book. */
  function EntryOrder(db: Db, id: nat, price: real): Order
    requires id < |db.proposals| && db.proposals[id].callId < |db.calls|
  {
    var p := db.proposals[id];
    Order(p.underlying, db.calls[CurrentCall(db.calls, p.callId)].benchmark, Notional(price, p.quantity, p.instrument),
          !p.instrument.Shares?)
  }

  /** What a due proposal's quotes lead to: nothing, an outcome without a fill, or an entry. */
  datatype Decision = Wait | Skip(kind: OutcomeKind) | Take(price: real, stop: Option<Stop>)

  function Decide(db: Db, cfg: Config, id: nat, q: Option<Quote>, u: Option<Quote>, measured: map<string, real>): Decision
    requires id < |db.proposals| && db.proposals[id].callId < |db.calls|
  {
    var p := db.proposals[id];
    if q.None? || q.value.ask <= 0.0 || q.value.ask > p.maxEntry then Skip(SkippedPrice)
    else
      var ask := q.value.ask;
      var stop := EntryLevels(db, cfg, id, ask, u);
      if stop.Refused? then Skip(SkippedInvalid)
      else
        var book := Book(db, Some(id));
        if book.Refused? then Wait
        else
          var order := EntryOrder(db, id, ask);
          var correlated := CorrelatedWith(book.value, p.underlying, measured, cfg.rules);
          if CheckBook(book.value, order, correlated, cfg.rules, cfg.reserve).Refused? then Skip(SkippedInvalid)
          else Take(ask, stop.value)
  }

  function EntryFill(id: nat, quantity: int, price: real, stop: Option<Stop>, now: Time): Fill {
    Fill(id, now, Buy, quantity, price, Entry, if stop.Some? then Some(stop.value.trigger) else None,
         if stop.Some? then Some(stop.value.limit) else None)
  }

  function FillWrites(
      db: Db, cfg: Config, id: nat, q: Option<Quote>, u: Option<Quote>, r: Reaction, measured: map<string, real>, now: Time)
      : seq<Write>
    requires id < |db.proposals| && db.proposals[id].callId < |db.calls|
  {
    match Decide(db, cfg, id, q, u, measured)
    case Wait => []
    case Skip(kind) => SkipRow(id, kind, r, now)
    case Take(price, stop) =>
      [Enter(EntryFill(id, db.proposals[id].quantity, price, stop, now), Outcome(id, now, Filled, r.veto, r.approve))]
  }

  /** The trigger a share position trades under: the entry trigger or the rounded-up invalidation, the higher. */
  function LiveTrigger(pos: Position, invalidation: real): real {
    Max(if pos.stopTrigger.Some? then pos.stopTrigger.value else 0.0, CeilCents(invalidation))
  }

  /** The limit used with it: the stored one unless the trigger was raised. */
  function LiveLimit(pos: Position, invalidation: real, rules: Rules): Option<real> {
    var raw := if pos.stopTrigger.Some? then pos.stopTrigger.value else 0.0;
    if LiveTrigger(pos, invalidation) > raw then Some(LimitBelow(LiveTrigger(pos, invalidation), rules)) else pos.stopLimit
  }

  function ExitReason(
      pos: Position, up: bool, target: real, invalidation: real, u: Quote, t: Quote, dte: int, rules: Rules)
      : Option<(Reason, real)>
  {
    if pos.instrument.Shares? then
      var trigger := LiveTrigger(pos, invalidation);
      var limit := LiveLimit(pos, invalidation, rules);
      if u.last <= trigger then Some((StopHit, if limit.None? || u.last >= limit.value then trigger else t.bid))
      else if u.last >= target then Some((TargetHit, t.bid))
      else None
    else if if up then u.last <= invalidation else u.last >= invalidation then Some((InvalidationHit, t.bid))
    else if if up then u.last >= target else u.last <= target then Some((TargetHit, t.bid))
    else if dte <= rules.optionCloseAtDte then Some((DteClose, t.bid))
    else None
  }

  /** A pass's view of one open position: quotes, days to the expiry its symbol names, and whether the PM asked for its exit. */
  datatype ExitInput = ExitInput(underlying: Option<Quote>, own: Option<Quote>, dte: int, wanted: bool)

  /** Why and at what price a position leaves in this pass, if it does. */
  function ExitHit(db: Db, cfg: Config, pos: Position, u: Quote, t: Quote, e: ExitInput, now: Time): Option<(Reason, real)>
    requires pos.callId < |db.calls|
  {
    var id := CurrentCall(db.calls, pos.callId);
    var call := db.calls[id];
    var invalidation := EffectiveInvalidation(db.calls, db.tightenings, id);
    var hit := ExitReason(pos, call.direction.Up?, call.target, invalidation, u, t, e.dte, cfg.rules);
    if hit.Some? then hit
    else if TimeOfDay(now) >= RESOLVED_EXIT_FROM && id in db.resolutions then Some((CallResolved, t.bid))
    else if e.wanted then Some((PmExit, t.bid))
    else None
  }

  /** One open position in one watch pass: its mark, and its sale when something calls for one. */
  function ExitWrites(db: Db, cfg: Config, pos: Position, e: ExitInput, now: Time): seq<Write>
    requires pos.callId < |db.calls|
  {
    if e.underlying.None? || e.own.None? || Stale(e.underlying.value, now) || Stale(e.own.value, now) then []
    else
      var u, t := e.underlying.value, e.own.value;
      var mark := MarkPrice(pos.symbol, if pos.instrument.Shares? then u.last else t.bid);
      var hit := ExitHit(db, cfg, pos, u, t, e, now);
      if hit.None? then [mark]
      else [mark, Leave(Fill(pos.proposal, now, Sell, pos.quantity, hit.value.1, hit.value.0, None, None))]
  }
}
