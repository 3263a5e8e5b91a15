/** What becomes of a posted proposal in a watch pass, and of an unposted one in a posting pass (desk/watch.py `_entries`,
    `_fill_entry`; desk/post.py): the exact condition of every outcome. */
module DeskEntries {
  import opened Basics
  import opened Money
  import opened Clock
  import opened Calls
  import opened Sizing
  import opened Ledger
  import opened Desk
  import opened DeskInvariant
  import opened DeskRuns
  import opened DeskTheorems

  // ----- an entry pass -----

  /** Posted today, before five to four. */
  predicate Live(posting: Posting, now: Time) { Day(now) <= Day(posting.at) && TimeOfDay(now) < 15 * HOUR + 55 * MINUTE }

  /** A reaction counts only on a message that went out. */
  predicate WentOut(posting: Posting) { posting.message.Some? && posting.message.value != "" }

  /** Its veto window is over, or someone approved. */
  predicate Due(posting: Posting, r: Reaction, now: Time) { now >= posting.deadline || (r.approve && WentOut(posting)) }

  /** The read answered, and what it has of the contract and of the underlying is at most five minutes old. */
  predicate Readable(p: Proposal, feed: Feed, now: Time) {
    && feed.Answered?
    && (p.symbol in feed.quotes ==> now - feed.quotes[p.symbol].time <= 300 * SECOND)
    && (p.underlying in feed.quotes ==> now - feed.quotes[p.underlying].time <= 300 * SECOND)
  }

  /** There is an ask, and it is within the limit. */
  predicate Affordable(p: Proposal, feed: Feed) {
    feed.Answered? && p.symbol in feed.quotes && 0.0 < feed.quotes[p.symbol].ask <= p.maxEntry
  }

  function GoverningLevel(db: Db, id: nat): real
    requires id < |db.proposals| && db.proposals[id].callId < |db.calls|
  {
    EffectiveInvalidation(db.calls, db.tightenings, CurrentCall(db.calls, db.proposals[id].callId))
  }

  /** The trigger a share entry would carry: the price at the ATR distance or the invalidation rounded up, the higher. */
  function EntryTrigger(db: Db, cfg: Config, id: nat, ask: real): (t: real)
    requires id < |db.proposals| && db.proposals[id].callId < |db.calls|
    ensures var atr := if db.proposals[id].atrPct.Some? then db.proposals[id].atrPct.value else 0.0;
            var byAtr, byThesis := TriggerAt(ask, TriggerPct(atr, cfg.rules)), CeilCents(GoverningLevel(db, id));
            t >= byAtr && t >= byThesis && (t == byAtr || t == byThesis)
  {
    var atr := if db.proposals[id].atrPct.Some? then db.proposals[id].atrPct.value else 0.0;
    Max(TriggerAt(ask, TriggerPct(atr, cfg.rules)), CeilCents(GoverningLevel(db, id)))
  }

  /** The thesis is not broken at this price: shares above their invalidation and their own stop; an option's underlying,
      where it is known, on the right side of the invalidation. */
  predicate ThesisStands(db: Db, cfg: Config, id: nat, ask: real, feed: Feed)
    requires id < |db.proposals| && db.proposals[id].callId < |db.calls| && feed.Answered?
  {
    var p, level := db.proposals[id], GoverningLevel(db, id);
    if p.instrument.Shares? then level < ask && EntryTrigger(db, cfg, id, ask) < ask
    else
      p.underlying in feed.quotes ==>
        if db.calls[CurrentCall(db.calls, p.callId)].direction.Up? then feed.quotes[p.underlying].last > level
        else feed.quotes[p.underlying].last < level
  }

  /** The book without the proposal takes the order at this price. */
  predicate CapsPass(db: Db, cfg: Config, id: nat, ask: real, measured: map<string, real>)
    requires id < |db.proposals| && db.proposals[id].callId < |db.calls|
  {
    var book := Book(db, Some(id));
    book.Ok? &&
    CheckBook(book.value, EntryOrder(db, id, ask), CorrelatedWith(book.value, db.proposals[id].underlying, measured, cfg.rules),
              cfg.rules, cfg.reserve).Ok?
  }

  /** What becomes of a proposal. */
  datatype Fate = Waits | Closes(kind: OutcomeKind) | Fills(price: real)

  /** The fate of a proposal in a pass, by its conditions alone; exactly one of them holds. */
  ghost predicate HasFate(db: Db, cfg: Config, id: nat, e: EntryInput, now: Time, fate: Fate)
    requires id < |db.proposals| && db.proposals[id].callId < |db.calls|
  {
    var p := db.proposals[id];
    if id !in db.postings then fate == Waits
    else if !Live(db.postings[id], now) then fate == Closes(Expired)
    else if !Due(db.postings[id], e.reaction, now) then fate == Waits
    else if e.feed.Unauthorized? then fate == Closes(SkippedBlind)
    else if !Readable(p, e.feed, now) then fate == Waits
    else if !Affordable(p, e.feed) then fate == Closes(SkippedPrice)
    else
      var ask := e.feed.quotes[p.symbol].ask;
      fate == if ThesisStands(db, cfg, id, ask, e.feed) && CapsPass(db, cfg, id, ask, e.measured) then Fills(ask)
              else Closes(SkippedInvalid)
  }

  /** The one write a fate makes: its outcome row, which records the reactions that counted, and on a fill the buy of the
      whole quantity with its stop. */
  ghost predicate WritesFate(db: Db, cfg: Config, id: nat, e: EntryInput, now: Time, fate: Fate, ws: seq<Write>)
    requires id < |db.proposals| && db.proposals[id].callId < |db.calls|
  {
    match fate
    case Waits => ws == []
    case Closes(kind) =>
      && |ws| == 1 && ws[0].Close? && ws[0].row.proposal == id && ws[0].row.at == now && ws[0].row.kind == kind
      && (id in db.postings && !kind.Expired? ==> Records(db.postings[id], e.reaction, ws[0].row))
      && (kind.Expired? ==> !ws[0].row.vetoed && !ws[0].row.approved)
    case Fills(price) =>
      && |ws| == 1 && ws[0].Enter? && ws[0].row.proposal == id && ws[0].row.at == now && ws[0].row.kind.Filled?
      && (id in db.postings ==> Records(db.postings[id], e.reaction, ws[0].row))
      && var f := ws[0].buy;
         && f.proposal == id && f.at == now && f.side.Buy? && f.price == price && f.quantity == db.proposals[id].quantity
         && f.reason.Entry?
         && (if db.proposals[id].instrument.Shares? then
               var t := EntryTrigger(db, cfg, id, price);
               f.stopTrigger == Some(t) && f.stopLimit == Some(LimitBelow(t, cfg.rules))
             else f.stopTrigger.None? && f.stopLimit.None?)
  }

  predicate Records(posting: Posting, r: Reaction, row: Outcome) {
    (row.vetoed <==> r.veto && WentOut(posting)) && (row.approved <==> r.approve && WentOut(posting))
  }

  lemma LevelsExactly(db: Db, cfg: Config, id: nat, ask: real, feed: Feed)
    requires id < |db.proposals| && db.proposals[id].callId < |db.calls| && feed.Answered?
    ensures var r := EntryLevels(db, cfg, id, ask, Find(feed.quotes, db.proposals[id].underlying));
            && (r.Ok? <==> ThesisStands(db, cfg, id, ask, feed))
            && (r.Ok? && db.proposals[id].instrument.Shares? ==>
                  var t := EntryTrigger(db, cfg, id, ask); r.value == Some(Stop(t, LimitBelow(t, cfg.rules))))
            && (r.Ok? && !db.proposals[id].instrument.Shares? ==> r.value.None?)
  {
    hide CurrentCall, EffectiveInvalidation, CeilCents, TriggerAt, TriggerPct, LimitBelow;
  }

  lemma DecidedExactly(db: Db, cfg: Config, id: nat, feed: Feed, measured: map<string, real>)
    requires id < |db.proposals| && db.proposals[id].callId < |db.calls| && db.start.Some? && feed.Answered?
    ensures var p := db.proposals[id];
            var d := Decide(db, cfg, id, Find(feed.quotes, p.symbol), Find(feed.quotes, p.underlying), measured);
            if !Affordable(p, feed) then d == Skip(SkippedPrice)
            else
              var ask := feed.quotes[p.symbol].ask;
              if ThesisStands(db, cfg, id, ask, feed) && CapsPass(db, cfg, id, ask, measured) then
                && d.Take? && d.price == ask
                && (p.instrument.Shares? ==>
                      var t := EntryTrigger(db, cfg, id, ask); d.stop == Some(Stop(t, LimitBelow(t, cfg.rules))))
                && (!p.instrument.Shares? ==> d.stop.None?)
              else d == Skip(SkippedInvalid)
  {
    var p := db.proposals[id];
    if Affordable(p, feed) {
      LevelsExactly(db, cfg, id, feed.quotes[p.symbol].ask, feed);
      StartedBookWithout(db, id);
      hide Book, CheckBook, CorrelatedWith, EntryLevels, ThesisStands, EntryOrder, EntryTrigger, LimitBelow;
    }
  }

  lemma StartedBookWithout(db: Db, id: nat)
    requires db.start.Some?
    ensures Book(db, Some(id)).Ok?
  {
  }

  lemma PassExactly(db: Db, cfg: Config, id: nat, e: EntryInput, now: Time, fate: Fate)
    requires id < |db.proposals| && db.proposals[id].callId < |db.calls| && db.start.Some?
    requires HasFate(db, cfg, id, e, now, fate)
    ensures WritesFate(db, cfg, id, e, now, fate, EntryWrites(db, cfg, id, e, now))
  {
    if e.feed.Answered? {
      DecidedExactly(db, cfg, id, e.feed, e.measured);
    }
    hide Decide, ThesisStands, CapsPass, EntryTrigger, LimitBelow;
  }

  lemma OneFate(db: Db, cfg: Config, id: nat, e: EntryInput, now: Time)
    requires id < |db.proposals| && db.proposals[id].callId < |db.calls|
    ensures exists fate :: HasFate(db, cfg, id, e, now, fate)
    ensures forall x, y :: HasFate(db, cfg, id, e, now, x) && HasFate(db, cfg, id, e, now, y) ==> x == y
  {
    hide ThesisStands, CapsPass, Live, Due, Readable;
    var p := db.proposals[id];
    var fate :=
      if id !in db.postings then Waits
      else if !Live(db.postings[id], now) then Closes(Expired)
      else if !Due(db.postings[id], e.reaction, now) then Waits
      else if e.feed.Unauthorized? then Closes(SkippedBlind)
      else if !Readable(p, e.feed, now) then Waits
      else if !Affordable(p, e.feed) then Closes(SkippedPrice)
      else
        var ask := e.feed.quotes[p.symbol].ask;
        if ThesisStands(db, cfg, id, ask, e.feed) && CapsPass(db, cfg, id, ask, e.measured) then Fills(ask)
        else Closes(SkippedInvalid);
    assert HasFate(db, cfg, id, e, now, fate);
  }

  /** In every run, what an entry pass writes is exactly the fate its conditions give the proposal. */
  lemma EveryEntryPassWritesItsFate(cfg: Config, steps: seq<Step>, states: seq<State>, k: nat, fate: Fate)
    requires SaneRules(cfg.rules) && Run(cfg, steps, states) && k < |steps| && steps[k].EntryStep?
    requires steps[k].id < |states[k].db.proposals| && states[k].db.proposals[steps[k].id].callId < |states[k].db.calls|
    requires HasFate(states[k].db, cfg, steps[k].id, steps[k].entry, steps[k].now, fate)
    ensures exists ws :: WritesFate(states[k].db, cfg, steps[k].id, steps[k].entry, steps[k].now, fate, ws)
                         && AllInsertable(states[k].db, ws) && states[k + 1].db == ApplyAll(states[k].db, ws)
  {
    var s, step, s' := states[k], steps[k], states[k + 1];
    ProposalsMeanStarted(cfg, steps, states, k);
    assert Next(cfg, s, step, s');
    hide Run, HasFate, WritesFate, EntryWrites, InSession, Pending, SaneFeed, SaneRules;
    PassExactly(s.db, cfg, step.id, step.entry, step.now, fate);
    assert Writes(cfg, s, step) == EntryWrites(s.db, cfg, step.id, step.entry, step.now);
  }

  lemma ProposalsMeanStarted(cfg: Config, steps: seq<Step>, states: seq<State>, i: nat)
    requires SaneRules(cfg.rules) && Run(cfg, steps, states) && i < |states| && states[i].db.proposals != []
    ensures states[i].db.start.Some?
  {
    EveryStateIsGood(cfg, steps, states, i);
    hide Run, CallsOk, FillsOk, LifeOk, MoneyOk, PledgeOk;
  }

  // ----- a posting pass -----

  /** Before the entry window closes, and a whole veto window before a close that is known. */
  predicate InTime(cfg: Config, window: Option<Window>, now: Time) {
    && now < At(Day(now), cfg.entryEnd)
    && (window.Some? && window.value.date == Day(now) && window.value.close.Some? ==>
          now + cfg.rules.vetoMinutes * MINUTE < window.value.close.value)
  }

  /** A proposal is posted exactly when it was made today, in time, and its message went out: with that message, and a
      deadline a whole veto window after the later of now and the opening of the entry window. Otherwise it expires. */
  lemma PostsExactlyWhen(db: Db, cfg: Config, id: nat, message: Option<string>, window: Option<Window>, now: Time)
    requires id < |db.proposals|
    ensures var w := PostWrite(db, cfg, id, message, window, now);
            if Day(now) <= Day(db.proposals[id].createdAt) && InTime(cfg, window, now) && message.Some? then
              && w.MarkPosted? && w.id == id && w.posting.at == now && w.posting.message == message
              && w.posting.deadline - cfg.rules.vetoMinutes * MINUTE >= now
              && w.posting.deadline - cfg.rules.vetoMinutes * MINUTE >= At(Day(now), cfg.entryStart)
              && (w.posting.deadline == now + cfg.rules.vetoMinutes * MINUTE
                  || w.posting.deadline == At(Day(now), cfg.entryStart) + cfg.rules.vetoMinutes * MINUTE)
            else w == Close(Outcome(id, now, Expired, false, false))
  {
    hide Day, At;
  }

  /** Every stored posting of a run was in time by the window its posting step knew. */
  lemma EveryPostingWasInTime(cfg: Config, steps: seq<Step>, states: seq<State>, i: nat, id: nat)
    requires Run(cfg, steps, states) && i < |states| && id in states[i].db.postings
    ensures exists k :: 0 <= k < i && steps[k].PostStep? && steps[k].id == id && steps[k].now == states[i].db.postings[id].at
                        && InTime(cfg, steps[k].window, steps[k].now)
  {
    EveryPostingHasItsStep(cfg, steps, states, i, id);
    hide Run;
    var k :| 0 <= k < i && PostedBy(cfg, steps[k], id, states[i].db.postings[id]);
    InTimeExactly(cfg, steps[k].window, steps[k].now);
  }

  lemma InTimeExactly(cfg: Config, window: Option<Window>, now: Time)
    ensures InTime(cfg, window, now) <==> now < PostingEnd(cfg, Day(now), window)
  {
    hide Day, At;
  }

  // ----- the session -----

  /** A pass acts exactly between the open and the close of a trading day: the known one of today, else nine-thirty to four
      on a weekday. */
  lemma ActsExactlyInSession(window: Option<Window>, now: Time)
    ensures InSession(window, now) <==>
              if window.Some? && window.value.date == Day(now) then
                && window.value.tradingDay && window.value.open.Some? && window.value.close.Some?
                && window.value.open.value <= now < window.value.close.value
              else
                Weekday(Day(now)) <= 4 && 9 * HOUR + 30 * MINUTE <= TimeOfDay(now) < 16 * HOUR
  {
    assert now == Day(now) * DAY + TimeOfDay(now);
  }
}
