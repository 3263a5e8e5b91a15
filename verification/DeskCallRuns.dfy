/** The call table and its proposals over every run: one open bet per name and direction, a bounded number of new calls a
    session, calls and proposals as the tools promise them, and the level a tightening leaves (desk/pm.py, desk/calls.py). */
module DeskCallRuns {
  import opened Basics
  import opened Money
  import opened Clock
  import opened Calls
  import opened Sizing
  import opened Ledger
  import opened Desk
  import opened DeskRuns
  import opened DeskCalls

  // ----- what is kept -----

  /** The most new calls a session may hold. */
  function MaxNew(cfg: Config): int { if cfg.rules.maxNewCallsPerDay < 0 then 0 else cfg.rules.maxNewCallsPerDay }

  /** When a call that is no extension is made, every earlier call on its bet has resolved. */
  ghost predicate BetsResolved(calls: seq<Call>, resolutions: map<nat, How>) {
    forall i, j | 0 <= i < j < |calls| ::
      calls[j].parent.None? && SameBet(calls[i], calls[j].symbol, calls[j].direction, calls[j].origin.Legacy?) ==> i in resolutions
  }

  /** A call on a known benchmark, with a horizon and levels inside the rules, of the session it was made in. */
  ghost predicate WellMade(cfg: Config, c: Call) {
    && c.benchmark in cfg.benchmarks && cfg.rules.horizonMin <= c.horizon <= cfg.rules.horizonMax
    && c.session == Day(c.madeAt)
    && Near(c.target, c.refPrice, cfg.rules) && Near(c.invalidation, c.refPrice, cfg.rules)
  }

  /** The money follows the call: its name, its moment, a conviction with a size, the instrument it asked for; and for
      shares a limit inside the chase, over the invalidation, under the ATR ceiling. */
  ghost predicate Backs(cfg: Config, c: Call, p: Proposal) {
    && p.underlying == c.symbol && p.createdAt == c.madeAt && !c.origin.Legacy?
    && cfg.rules.minConviction <= c.conviction && c.conviction in SizeTable(p.instrument.Shares?, cfg.rules)
    && match p.instrument
       case Shares =>
         && c.funding.FundShares? && c.direction.Up? && p.symbol == c.symbol
         && p.maxEntry <= c.refPrice + Share(cfg.rules.maxEntryChasePct, c.refPrice) && c.invalidation < p.maxEntry
         && p.atrPct.Some? && p.atrPct.value <= cfg.rules.maxDailyAtrPct
       case CallOption => c.funding.FundCall? && c.direction.Up? && p.atrPct.None?
       case PutOption => c.funding.FundPut? && c.direction.Down? && p.atrPct.None?
  }

  ghost predicate AllWellMade(cfg: Config, calls: seq<Call>) { forall i :: 0 <= i < |calls| ==> WellMade(cfg, calls[i]) }

  ghost predicate AllBacked(cfg: Config, calls: seq<Call>, proposals: seq<Proposal>) {
    forall k :: 0 <= k < |proposals| ==> proposals[k].callId < |calls| && Backs(cfg, calls[proposals[k].callId], proposals[k])
  }

  ghost predicate SessionsBounded(cfg: Config, calls: seq<Call>) {
    forall session: int :: |NewCallsOn(calls, session)| <= MaxNew(cfg)
  }

  /** A checked call in flight may still be written. */
  ghost predicate PledgeKept(cfg: Config, db: Db, p: Pledge) {
    && p.call.parent.None? && p.at == p.call.madeAt && WellMade(cfg, p.call)
    && NameFree(db, p.call.symbol, p.call.direction, p.call.origin.Legacy?)
    && (!p.call.origin.Legacy? ==> |NewCallsOn(db.calls, p.call.session)| < cfg.rules.maxNewCallsPerDay)
    && (p.plan.Some? ==> Backs(cfg, p.call, ProposalFor(0, p)))
  }

  ghost predicate Kept(cfg: Config, s: State) {
    && BetsResolved(s.db.calls, s.db.resolutions) && SessionsBounded(cfg, s.db.calls)
    && AllWellMade(cfg, s.db.calls) && AllBacked(cfg, s.db.calls, s.db.proposals)
    && (s.pledge.Some? ==> PledgeKept(cfg, s.db, s.pledge.value))
  }

  // ----- each step keeps it -----

  lemma SubmittedIsKept(cfg: Config, db: Db, cin: CallIn, pin: PmInput, now: Time)
    requires SaneRules(cfg.rules) && SaneFeed(pin.optionFeed) && Submit(db, cfg, cin, pin, now).Ok?
    ensures PledgeKept(cfg, db, Submit(db, cfg, cin, pin, now).value)
  {
    AcceptsExactlyWhen(db, cfg, cin, pin, now);
    AcceptedCallSaysWhatWasAsked(db, cfg, cin, pin, now);
    var p := Submit(db, cfg, cin, pin, now).value;
    hide Submit, Fund, NameFree, NewCallsOn, Near, Share, AllFresh;
    if p.plan.Some? {
      FundsExactlyWhen(db, cfg, cin, pin, p.call.refPrice, now, p.plan.value);
      BackedByItsPlan(db, cfg, cin, pin, p, now);
    }
  }

  lemma BackedByItsPlan(db: Db, cfg: Config, cin: CallIn, pin: PmInput, p: Pledge, now: Time)
    requires p.plan.Some? && Fundable(db, cfg, cin, pin, p.call.refPrice, now, p.plan.value)
    requires p.call.symbol == cin.symbol && p.call.direction == cin.direction && p.call.invalidation == cin.invalidation
    requires p.call.conviction == cin.conviction && p.call.funding == cin.funding && p.at == p.call.madeAt
    requires !p.call.origin.Legacy?
    ensures Backs(cfg, p.call, ProposalFor(0, p))
  {
    hide MostUnits, CheckBook, CapDollars, Share, AllFresh, Cents, Book;
  }

  lemma ExtensionIsKept(cfg: Config, db: Db, id: nat, l: Levels, feed: Feed, now: Time)
    requires AllWellMade(cfg, db.calls) && Extend(db, cfg, id, l, feed, now).Ok?
    ensures WellMade(cfg, Extend(db, cfg, id, l, feed, now).value) && Extend(db, cfg, id, l, feed, now).value.parent.Some?
  {
    ExtendsExactlyWhen(db, cfg, id, l, feed, now);
    ExtensionSaysWhatWasAsked(db, cfg, id, l, feed, now);
    hide Extend, Near, AllFresh, Held;
    assert WellMade(cfg, db.calls[id]);
  }

  lemma NameFreeGrows(a: Db, b: Db, symbol: string, d: Direction, legacy: bool)
    requires a.calls == b.calls && a.resolutions.Keys <= b.resolutions.Keys && NameFree(a, symbol, d, legacy)
    ensures NameFree(b, symbol, d, legacy)
  {
  }

  /** The tables it speaks of are as they were, or have more resolutions. */
  lemma FrameIsKept(cfg: Config, s: State, s': State)
    requires Kept(cfg, s) && s'.db.calls == s.db.calls && s'.db.proposals == s.db.proposals && s'.pledge == s.pledge
    requires s.db.resolutions.Keys <= s'.db.resolutions.Keys
    ensures Kept(cfg, s')
  {
    hide NewCallsOn, WellMade, Backs, SameBet;
    if s.pledge.Some? {
      var c := s.pledge.value.call;
      NameFreeGrows(s.db, s'.db, c.symbol, c.direction, c.origin.Legacy?);
    }
  }

  /** One more call: an extension, or a bet whose name is free. */
  lemma OneMoreCall(cfg: Config, db: Db, c: Call)
    requires BetsResolved(db.calls, db.resolutions) && SessionsBounded(cfg, db.calls) && AllWellMade(cfg, db.calls)
    requires AllBacked(cfg, db.calls, db.proposals) && WellMade(cfg, c)
    requires c.parent.None? ==> NameFree(db, c.symbol, c.direction, c.origin.Legacy?)
    requires c.parent.None? && !c.origin.Legacy? ==> |NewCallsOn(db.calls, c.session)| < cfg.rules.maxNewCallsPerDay
    ensures BetsResolved(db.calls + [c], db.resolutions) && SessionsBounded(cfg, db.calls + [c])
    ensures AllWellMade(cfg, db.calls + [c]) && AllBacked(cfg, db.calls + [c], db.proposals)
  {
    hide WellMade, Backs, SameBet, NewCallsOn;
    forall session ensures |NewCallsOn(db.calls + [c], session)| <= MaxNew(cfg) {
      NewCallsAfter(db.calls, c, session);
      assert |NewCallsOn(db.calls, session)| <= MaxNew(cfg);
    }
  }

  /** A step of another kind writes no call, no proposal and no resolution. */
  predicate Quiet(ws: seq<Write>) { forall k :: 0 <= k < |ws| ==> !ws[k].AddCall? && !ws[k].AddProposal? && !ws[k].Resolve? }

  lemma OtherStepsAreQuiet(cfg: Config, s: State, step: Step)
    requires Enabled(cfg, s, step) && !step.Commit? && !step.ExtendStep? && !step.ScoreStep?
    ensures Quiet(Writes(cfg, s, step))
  {
    hide Decide, TightenTo, Submit, InSession, Committed, Pending, Unposted, OpenPositions, PostingEnd, VetoDeadline, ExitHit;
  }

  lemma {:induction false} QuietKeepsTables(db: Db, ws: seq<Write>)
    requires AllInsertable(db, ws) && Quiet(ws)
    ensures var after := ApplyAll(db, ws);
            after.calls == db.calls && after.proposals == db.proposals && after.resolutions == db.resolutions
    decreases |ws|
  {
    if ws != [] {
      assert !ws[0].AddCall? && !ws[0].AddProposal? && !ws[0].Resolve?;
      QuietKeepsTables(Apply(db, ws[0]), ws[1..]);
    }
  }

  lemma CommitIsKept(cfg: Config, s: State, now: Time)
    requires Kept(cfg, s) && s.pledge.Some?
    ensures AllInsertable(s.db, CommitWrites(s.db, s.pledge.value))
    ensures Kept(cfg, State(ApplyAll(s.db, CommitWrites(s.db, s.pledge.value)), None, now))
  {
    var p := s.pledge.value;
    CommitApplied(s.db, p);
    hide CommitWrites, ApplyAll, AllInsertable, WellMade, Backs, NameFree, NewCallsOn, SameBet, BetsResolved,
      SessionsBounded, AllWellMade;
    OneMoreCall(cfg, s.db, p.call);
    if p.plan.Some? {
      SameBacking(cfg, p, |s.db.calls|);
    }
  }

  lemma SameBacking(cfg: Config, p: Pledge, id: nat)
    requires p.plan.Some? && Backs(cfg, p.call, ProposalFor(0, p))
    ensures Backs(cfg, p.call, ProposalFor(id, p))
  {
  }

  lemma StepIsKept(cfg: Config, s: State, step: Step, s': State)
    requires SaneRules(cfg.rules) && Kept(cfg, s) && Next(cfg, s, step, s')
    ensures Kept(cfg, s')
  {
    hide Kept, Submit, Extend, CommitWrites, SaneRules;
    match step
    case Commit(now) => CommitIsKept(cfg, s, now);
    case Check(cin, pin, now) => CheckIsKept(cfg, s, cin, pin, now, s');
    case ExtendStep(id, l, feed, now) => ExtendIsKept(cfg, s, id, l, feed, now, s');
    case ScoreStep(id, how, now) =>
      ApplyOne(s.db, Resolve(id, how));
      FrameIsKept(cfg, s, s');
    case _ =>
      OtherStepsAreQuiet(cfg, s, step);
      hide Writes, Enabled;
      QuietKeepsTables(s.db, Writes(cfg, s, step));
      FrameIsKept(cfg, s, s');
  }

  lemma CheckIsKept(cfg: Config, s: State, cin: CallIn, pin: PmInput, now: Time, s': State)
    requires SaneRules(cfg.rules) && Kept(cfg, s) && Next(cfg, s, Check(cin, pin, now), s')
    ensures Kept(cfg, s')
  {
    hide Submit, PledgeKept, SaneRules, BetsResolved, SessionsBounded, AllWellMade, AllBacked;
    if Submit(s.db, cfg, cin, pin, now).Ok? {
      SubmittedIsKept(cfg, s.db, cin, pin, now);
    }
  }

  lemma ExtendIsKept(cfg: Config, s: State, id: nat, l: Levels, feed: Feed, now: Time, s': State)
    requires Kept(cfg, s) && Next(cfg, s, ExtendStep(id, l, feed, now), s')
    ensures Kept(cfg, s')
  {
    hide Extend, WellMade, BetsResolved, SessionsBounded, AllWellMade, AllBacked;
    var c := Extend(s.db, cfg, id, l, feed, now);
    if c.Ok? {
      ApplyOne(s.db, AddCall(c.value));
      ExtensionIsKept(cfg, s.db, id, l, feed, now);
      OneMoreCall(cfg, s.db, c.value);
    }
  }

  lemma EmptyIsKept(cfg: Config, clock: Time)
    ensures Kept(cfg, State(EMPTY, None, clock))
  {
    assert forall session: int :: NewCallsOn([], session) == {};
  }

  lemma {:induction false} EveryStateIsKept(cfg: Config, steps: seq<Step>, states: seq<State>, i: nat)
    requires SaneRules(cfg.rules) && Run(cfg, steps, states) && i < |states|
    ensures Kept(cfg, states[i])
  {
    hide Kept, Next, SaneRules;
    if i == 0 {
      EmptyIsKept(cfg, states[0].clock);
      assert states[0] == State(EMPTY, None, states[0].clock);
    } else {
      EveryStateIsKept(cfg, steps, states, i - 1);
      StepIsKept(cfg, states[i - 1], steps[i - 1], states[i]);
    }
  }

  // ----- what every run promises of its calls -----

  /** One open bet: in every state of every run, of two calls on one name and direction, both the desk's own or both on
      old positions, the earlier has resolved unless the later is an extension. */
  lemma OneOpenBetPerName(cfg: Config, steps: seq<Step>, states: seq<State>, n: nat, i: nat, j: nat)
    requires SaneRules(cfg.rules) && Run(cfg, steps, states) && n < |states|
    requires i < j < |states[n].db.calls| && states[n].db.calls[j].parent.None?
    requires var a, b := states[n].db.calls[i], states[n].db.calls[j];
             a.symbol == b.symbol && a.direction == b.direction && (a.origin.Legacy? <==> b.origin.Legacy?)
    ensures i in states[n].db.resolutions
  {
    EveryStateIsKept(cfg, steps, states, n);
    hide Run, SessionsBounded, AllWellMade, AllBacked, PledgeKept;
  }

  /** No session of any run holds more of the desk's own new calls than the rules allow. */
  lemma SessionsAreBounded(cfg: Config, steps: seq<Step>, states: seq<State>, n: nat, session: int)
    requires SaneRules(cfg.rules) && Run(cfg, steps, states) && n < |states|
    ensures |set i: nat | i < |states[n].db.calls| && states[n].db.calls[i].session == session
                          && !states[n].db.calls[i].origin.Legacy? && states[n].db.calls[i].parent.None?|
            <= if cfg.rules.maxNewCallsPerDay < 0 then 0 else cfg.rules.maxNewCallsPerDay
  {
    EveryStateIsKept(cfg, steps, states, n);
    hide Run, BetsResolved, AllWellMade, AllBacked, PledgeKept;
    assert |NewCallsOn(states[n].db.calls, session)| <= MaxNew(cfg);
  }

  /** Every call of every run has a known benchmark, a horizon and levels inside the rules, and its own day's session; and
      every proposal backs its call. */
  lemma EveryCallIsWellMade(cfg: Config, steps: seq<Step>, states: seq<State>, n: nat)
    requires SaneRules(cfg.rules) && Run(cfg, steps, states) && n < |states|
    ensures AllWellMade(cfg, states[n].db.calls) && AllBacked(cfg, states[n].db.calls, states[n].db.proposals)
  {
    EveryStateIsKept(cfg, steps, states, n);
    hide Run, BetsResolved, SessionsBounded, PledgeKept, AllWellMade, AllBacked;
  }

  // ----- tightenings -----

  /** In every run, after an accepted tightening the call's governing level is exactly the level asked for, and every other
      call's is as it was; a refused one changes nothing. */
  lemma TighteningSetsTheLevel(cfg: Config, steps: seq<Step>, states: seq<State>, k: nat, other: nat)
    requires Run(cfg, steps, states) && k < |steps| && steps[k].TightenStep?
    ensures var s, step, s' := states[k], steps[k], states[k + 1];
            if TightenTo(s.db, step.callId, step.invalidation, step.feed, step.now).Ok? then
              && step.callId < |s'.db.calls| && s'.db.calls == s.db.calls
              && EffectiveInvalidation(s'.db.calls, s'.db.tightenings, step.callId) == step.invalidation
              && (other < |s.db.calls| && other != step.callId ==>
                    EffectiveInvalidation(s'.db.calls, s'.db.tightenings, other) ==
                    EffectiveInvalidation(s.db.calls, s.db.tightenings, other))
            else s'.db == s.db
  {
    var s, step, s' := states[k], steps[k], states[k + 1];
    assert Next(cfg, s, step, s');
    hide Run, TightenTo;
    TightensExactlyWhen(s.db, step.callId, step.invalidation, step.feed, step.now);
    var t := TightenTo(s.db, step.callId, step.invalidation, step.feed, step.now);
    if t.Ok? {
      ApplyOne(s.db, Tighten(t.value));
      Snoc(s.db.tightenings, t.value);
      NewestTighteningGoverns(s.db.calls, s'.db.tightenings, step.callId, |s.db.tightenings|);
    }
  }
}
