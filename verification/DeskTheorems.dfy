/** The main results about the paper desk, each over every state of every run. */
module DeskTheorems {
  import opened Basics
  import opened Money
  import opened Clock
  import opened Calls
  import opened Sizing
  import opened Ledger
  import opened Desk
  import opened DeskInvariant
  import opened DeskRuns
  import opened Conservation

  // ----- money -----

  /** Reserve safety: the cash sizing sees, net of every pending worst case, never falls below the reserve (or the
      start equity, when the book started under it), and positions plus pending proposals never exceed the limit. */
  lemma ReserveIsNeverBreached(cfg: Config, steps: seq<Step>, states: seq<State>, i: nat)
    requires SaneRules(cfg.rules) && Run(cfg, steps, states) && i < |states|
    requires states[i].db.start.Some?
    ensures Book(states[i].db, None).Ok?
    ensures Book(states[i].db, None).value.cash >= Min(states[i].db.start.value, cfg.reserve)
    ensures |Book(states[i].db, None).value.holdings| <= MaxSlots(cfg)
  {
    EveryStateIsGood(cfg, steps, states, i);
    EquityIgnoresCommitments(states[i].db, None);
    hide CallsOk, RowsOk, FillsOk, LifeOk, Book, NetCash, Slots, Run;
  }

  /** Conservation in every state, and every proposal's fills are none, one buy, or one buy and one equal sell. */
  lemma CashIsAlwaysConserved(cfg: Config, steps: seq<Step>, states: seq<State>, i: nat)
    requires SaneRules(cfg.rules) && Run(cfg, steps, states) && i < |states|
    requires states[i].db.start.Some?
    ensures var db := states[i].db;
            && db.start.value + CashFlow(db.proposals, db.fills) ==
               db.start.value + Profit(ClosedTrades(db.proposals, db.fills)) - EntryCost(OpenPositions(db.proposals, db.fills))
            && forall id :: 0 <= id < |db.proposals| ==> FillShape(FillsOf(db.fills, id), db.proposals[id].quantity)
  {
    EveryStateIsGood(cfg, steps, states, i);
    hide CallsOk, LifeOk, MoneyOk, PledgeOk, Run, CashFlow, ClosedTrades, OpenPositions;
    CashIsConserved(states[i].db);
  }

  // ----- lifecycle -----

  /** No proposal has two outcomes, and every entry fill is within its limit, was posted with a message, came after its
      veto deadline or an approval, before the cutoff, on the Eastern day it was made and posted. */
  lemma EveryEntryIsGood(cfg: Config, steps: seq<Step>, states: seq<State>, i: nat)
    requires SaneRules(cfg.rules) && Run(cfg, steps, states) && i < |states|
    ensures var db := states[i].db;
            && (forall a, b :: 0 <= a < b < |db.outcomes| ==> db.outcomes[a].proposal != db.outcomes[b].proposal)
            && (forall f :: f in db.fills && f.side.Buy? ==> GoodEntry(cfg, db, f))
  {
    EveryStateIsGood(cfg, steps, states, i);
    hide GoodEntry, MoneyOk, PledgeOk, FillsOk, CallsOk, Run;
  }

  /** The veto window is real: in every run an entry fill nobody approved came at least a whole veto window after its
      posting and after the opening of that day's entry window. */
  lemma EntryWaitsOutTheVeto(cfg: Config, steps: seq<Step>, states: seq<State>, i: nat, f: Fill)
    requires SaneRules(cfg.rules) && Run(cfg, steps, states) && i < |states|
    requires f in states[i].db.fills && f.side.Buy?
    ensures var db := states[i].db;
            && f.proposal in db.postings
            && (ApprovedEntry(db, f.proposal)
                || (f.at >= db.postings[f.proposal].at + VetoSpan(cfg) && f.at >= At(Day(f.at), cfg.entryStart) + VetoSpan(cfg)))
  {
    EveryStateIsGood(cfg, steps, states, i);
    hide CallsOk, RowsOk, FillsOk, MoneyOk, PledgeOk, Run, CarriesStop, ApprovedEntry;
    assert GoodEntry(cfg, states[i].db, f);
  }

  /** The step that wrote an entry fill, with the session open by its window. */
  ghost predicate EnteredBy(step: Step, f: Fill) {
    step.EntryStep? && step.id == f.proposal && step.now == f.at && InSession(step.window, step.now)
  }

  lemma NewBuyIsEntered(cfg: Config, s: State, step: Step, s': State, f: Fill)
    requires SaneRules(cfg.rules) && Good(cfg, s) && Next(cfg, s, step, s')
    requires f in s'.db.fills && f.side.Buy? && f !in s.db.fills
    ensures EnteredBy(step, f)
  {
    var ws := Writes(cfg, s, step);
    if step.Commit? {
      CommitApplied(s.db, s.pledge.value);
    } else {
      NewFillIsWritten(s.db, ws, f);
      var k :| 0 <= k < |ws| && BuysOrSells(ws[k], f);
      BuyWriteIsEntry(cfg, s, step, k, f);
    }
  }

  ghost predicate BuysOrSells(w: Write, f: Fill) { (w.Enter? && w.buy == f) || (w.Leave? && w.sale == f) }

  lemma {:induction false} NewFillIsWritten(db: Db, ws: seq<Write>, f: Fill)
    requires AllInsertable(db, ws) && f in ApplyAll(db, ws).fills && f !in db.fills
    ensures exists k :: 0 <= k < |ws| && BuysOrSells(ws[k], f)
    decreases |ws|
  {
    var next := Apply(db, ws[0]);
    if f in next.fills {
      assert BuysOrSells(ws[0], f);
    } else {
      NewFillIsWritten(next, ws[1..], f);
      var k :| 0 <= k < |ws[1..]| && BuysOrSells(ws[1..][k], f);
      assert BuysOrSells(ws[k + 1], f);
    }
  }

  lemma BuyWriteIsEntry(cfg: Config, s: State, step: Step, k: nat, f: Fill)
    requires Enabled(cfg, s, step) && k < |Writes(cfg, s, step)| && BuysOrSells(Writes(cfg, s, step)[k], f) && f.side.Buy?
    ensures EnteredBy(step, f)
  {
    hide Decide, ExitHit, Extend, TightenTo, Submit, InSession, Committed, Pending, Unposted, OpenPositions;
  }

  /** Every entry fill of every run was written by a watch step of its own proposal, at its own time, with the session open. */
  lemma {:induction false} EveryEntryHasItsStep(cfg: Config, steps: seq<Step>, states: seq<State>, i: nat, f: Fill)
    requires SaneRules(cfg.rules) && Run(cfg, steps, states) && i < |states|
    requires f in states[i].db.fills && f.side.Buy?
    ensures exists k :: 0 <= k < i && EnteredBy(steps[k], f)
  {
    hide Next, InSession, Good;
    if f in states[0].db.fills {
      assert false;
    } else if f in states[i - 1].db.fills {
      EveryEntryHasItsStep(cfg, steps, states, i - 1, f);
    } else {
      EveryStateIsGood(cfg, steps, states, i - 1);
      NewBuyIsEntered(cfg, states[i - 1], steps[i - 1], states[i], f);
    }
  }

  // ----- tables only grow -----

  /** Rows are only appended, and what is set once stays: the book's start, a posting, a resolution. */
  ghost predicate Grew(a: Db, b: Db) {
    && a.calls <= b.calls && a.tightenings <= b.tightenings && a.proposals <= b.proposals && a.outcomes <= b.outcomes
    && a.fills <= b.fills
    && (a.start.Some? ==> b.start == a.start)
    && (forall id :: id in a.postings ==> id in b.postings && b.postings[id] == a.postings[id])
    && (forall id :: id in a.resolutions ==> id in b.resolutions && b.resolutions[id] == a.resolutions[id])
  }

  lemma {:induction false} WritesGrow(db: Db, ws: seq<Write>)
    requires AllInsertable(db, ws)
    ensures Grew(db, ApplyAll(db, ws))
    decreases |ws|
  {
    if ws == [] {
      GrewBy(db, db, db);
    } else {
      WriteGrows(db, ws[0]);
      hide Grew, Apply;
      WritesGrow(Apply(db, ws[0]), ws[1..]);
      GrewBy(db, Apply(db, ws[0]), ApplyAll(db, ws));
    }
  }

  lemma WriteGrows(db: Db, w: Write)
    requires Insertable(db, w)
    ensures Grew(db, Apply(db, w))
  {
  }

  lemma GrewBy(a: Db, b: Db, c: Db)
    ensures Grew(a, a) && (Grew(a, b) && Grew(b, c) ==> Grew(a, c))
  {
  }

  /** Over any stretch of a run nothing the desk wrote is changed or lost. */
  lemma {:induction false} TablesOnlyGrow(cfg: Config, steps: seq<Step>, states: seq<State>, i: nat, j: nat)
    requires Run(cfg, steps, states) && i <= j < |states|
    ensures Grew(states[i].db, states[j].db)
    decreases j
  {
    if i == j {
      GrewBy(states[i].db, states[i].db, states[i].db);
    } else {
      TablesOnlyGrow(cfg, steps, states, i, j - 1);
      assert Next(cfg, states[j - 1], steps[j - 1], states[j]);
      hide Writes, Enabled, PledgeAfter, Grew;
      WritesGrow(states[j - 1].db, Writes(cfg, states[j - 1], steps[j - 1]));
      GrewBy(states[i].db, states[j - 1].db, states[j].db);
    }
  }

  // ----- posting and the session's close -----

  /** A proposal posted before the posting end has its veto deadline before the known close exactly when the entry
      window opens early enough for a whole veto window. */
  lemma DeadlineBeforeClose(cfg: Config, now: Time, w: Window)
    requires w.date == Day(now) && w.close.Some? && now < PostingEnd(cfg, Day(now), Some(w))
    ensures VetoDeadline(cfg, now) < w.close.value <==> At(Day(now), cfg.entryStart) + VetoSpan(cfg) < w.close.value
    ensures At(Day(now), cfg.entryStart) < PostingEnd(cfg, Day(now), Some(w)) ==> VetoDeadline(cfg, now) < w.close.value
  {
  }

  /** The posting step behind a stored posting: it wrote exactly this row, in time. */
  ghost predicate PostedBy(cfg: Config, step: Step, id: nat, posting: Posting) {
    && step.PostStep? && step.id == id && step.message.Some?
    && posting == Posting(step.now, VetoDeadline(cfg, step.now), step.message)
    && step.now < PostingEnd(cfg, Day(step.now), step.window)
  }

  lemma {:induction false} NewPostingIsWritten(db: Db, ws: seq<Write>, id: nat)
    requires AllInsertable(db, ws)
    ensures id in db.postings ==> id in ApplyAll(db, ws).postings && ApplyAll(db, ws).postings[id] == db.postings[id]
    ensures id !in db.postings && id in ApplyAll(db, ws).postings ==>
              exists k :: 0 <= k < |ws| && ws[k] == MarkPosted(id, ApplyAll(db, ws).postings[id])
    decreases |ws|
  {
    if ws != [] {
      var next := Apply(db, ws[0]);
      NewPostingIsWritten(next, ws[1..], id);
      if id !in db.postings && id in ApplyAll(db, ws).postings {
        if id in next.postings {
          assert ws[0] == MarkPosted(id, next.postings[id]);
        } else {
          var k :| 0 <= k < |ws[1..]| && ws[1..][k] == MarkPosted(id, ApplyAll(db, ws).postings[id]);
          assert ws[k + 1] == ws[1..][k];
        }
      }
    }
  }

  lemma PostingWriteIsPosted(cfg: Config, s: State, step: Step, k: nat, id: nat, posting: Posting)
    requires Enabled(cfg, s, step) && k < |Writes(cfg, s, step)| && Writes(cfg, s, step)[k] == MarkPosted(id, posting)
    ensures PostedBy(cfg, step, id, posting)
  {
    hide Decide, ExitHit, Extend, TightenTo, Submit, InSession, Committed, Pending, Unposted, OpenPositions,
      PostingEnd, VetoDeadline;
  }

  /** Every posting of every run is the row one posting step wrote, and it never changes. */
  lemma {:induction false} EveryPostingHasItsStep(cfg: Config, steps: seq<Step>, states: seq<State>, i: nat, id: nat)
    requires Run(cfg, steps, states) && i < |states| && id in states[i].db.postings
    ensures exists k :: 0 <= k < i && PostedBy(cfg, steps[k], id, states[i].db.postings[id])
  {
    hide Writes, PostedBy, Enabled, PledgeAfter;
    if id in states[0].db.postings {
      assert false;
    } else {
      var s, step := states[i - 1], steps[i - 1];
      assert Next(cfg, s, step, states[i]);
      NewPostingIsWritten(s.db, Writes(cfg, s, step), id);
      if id in s.db.postings {
        EveryPostingHasItsStep(cfg, steps, states, i - 1, id);
      } else {
        var k :| 0 <= k < |Writes(cfg, s, step)| && Writes(cfg, s, step)[k] == MarkPosted(id, states[i].db.postings[id]);
        PostingWriteIsPosted(cfg, s, step, k, id, states[i].db.postings[id]);
      }
    }
  }

  /** Over runs: the deadline stored with a posting falls before the close its posting step knew exactly when the entry
      window opens early enough for a whole veto window. */
  lemma StoredDeadlineBeforeClose(cfg: Config, steps: seq<Step>, states: seq<State>, i: nat, id: nat)
    requires Run(cfg, steps, states) && i < |states| && id in states[i].db.postings
    ensures var posting := states[i].db.postings[id];
            exists k :: 0 <= k < i && PostedBy(cfg, steps[k], id, posting) && DeadlineMeets(cfg, posting, steps[k].window)
  {
    hide PostedBy, DeadlineMeets, Next;
    EveryPostingHasItsStep(cfg, steps, states, i, id);
    var posting := states[i].db.postings[id];
    var k :| 0 <= k < i && PostedBy(cfg, steps[k], id, posting);
    PostedDeadlineMeets(cfg, steps[k], id, posting);
  }

  ghost predicate DeadlineMeets(cfg: Config, posting: Posting, window: Option<Window>) {
    window.Some? && window.value.date == Day(posting.at) && window.value.close.Some? ==>
      (posting.deadline < window.value.close.value <==>
         At(Day(posting.at), cfg.entryStart) + VetoSpan(cfg) < window.value.close.value)
  }

  lemma PostedDeadlineMeets(cfg: Config, step: Step, id: nat, posting: Posting)
    requires PostedBy(cfg, step, id, posting)
    ensures DeadlineMeets(cfg, posting, step.window)
  {
    if step.window.Some? && step.window.value.date == Day(step.now) && step.window.value.close.Some? {
      DeadlineBeforeClose(cfg, step.now, step.window.value);
    }
  }

  /** The guard can fail: a post just before a 10:05 close, with the entry window opening at 10:00, ends its veto at 10:10. */
  lemma DeadlineAfterAnEarlyClose(cfg: Config)
    requires cfg.entryStart == 10 * HOUR && cfg.entryEnd == 15 * HOUR && cfg.rules.vetoMinutes == 10
    ensures exists now: Time, w: Window :: w.date == Day(now) && w.close.Some? && now < PostingEnd(cfg, Day(now), Some(w))
                             && VetoDeadline(cfg, now) > w.close.value
  {
    var now := 9 * HOUR + 50 * MINUTE;
    var w := Window(0, true, Some(9 * HOUR), Some(10 * HOUR + 5 * MINUTE));
    assert w.date == Day(now) && now < PostingEnd(cfg, Day(now), Some(w)) && VetoDeadline(cfg, now) > w.close.value;
  }

  // ----- the share stop -----

  /** The later level is at least as tight for the call's direction. */
  predicate NoLooser(d: Direction, before: real, after: real) { if d.Up? then before <= after else after <= before }

  /** Over any stretch of a run the level a call's stop follows only tightens: up for an up call, down for a down call. */
  lemma {:induction false} InvalidationOnlyTightens(cfg: Config, steps: seq<Step>, states: seq<State>, i: nat, j: nat, id: nat)
    requires SaneRules(cfg.rules) && Run(cfg, steps, states) && i <= j < |states| && id < |states[i].db.calls|
    ensures states[i].db.calls <= states[j].db.calls
    ensures NoLooser(states[i].db.calls[id].direction,
                     EffectiveInvalidation(states[i].db.calls, states[i].db.tightenings, id),
                     EffectiveInvalidation(states[j].db.calls, states[j].db.tightenings, id))
    decreases j
  {
    hide Next, Good, EffectiveInvalidation;
    if i < j {
      InvalidationOnlyTightens(cfg, steps, states, i, j - 1, id);
      EveryStateIsGood(cfg, steps, states, j - 1);
      StepOnlyTightens(cfg, states[j - 1], steps[j - 1], states[j], id);
    }
  }

  lemma StepOnlyTightens(cfg: Config, s: State, step: Step, s': State, id: nat)
    requires SaneRules(cfg.rules) && Good(cfg, s) && Next(cfg, s, step, s') && id < |s.db.calls|
    ensures s.db.calls <= s'.db.calls
    ensures NoLooser(s.db.calls[id].direction, EffectiveInvalidation(s.db.calls, s.db.tightenings, id),
                     EffectiveInvalidation(s'.db.calls, s'.db.tightenings, id))
  {
    if step.Commit? {
      CommitApplied(s.db, s.pledge.value);
    } else {
      hide CallsOk, RowsOk, FillsOk, LifeOk, MoneyOk, PledgeOk, Writes, PledgeAfter, EffectiveInvalidation;
      StepIsJustified(cfg, s, step);
      WritesOnlyTighten(cfg, s.db, step.now, Writes(cfg, s, step), id);
    }
  }

  lemma WriteOnlyTightens(cfg: Config, db: Db, now: Time, w: Write, id: nat)
    requires Justified(cfg, db, now, w) && id < |db.calls|
    ensures db.calls <= Apply(db, w).calls
    ensures NoLooser(db.calls[id].direction, EffectiveInvalidation(db.calls, db.tightenings, id),
                     EffectiveInvalidation(Apply(db, w).calls, Apply(db, w).tightenings, id))
  {
    hide NetCash, Slots, GoodEntry, FillsOf, ProposalOk, Committed, ExtensionOf, Worst, IsTrade, VetoDeadline,
      LevelsStand;
    if w.Tighten? {
      Snoc(db.tightenings, w.tightening);
    }
  }

  lemma {:induction false} WritesOnlyTighten(cfg: Config, db: Db, now: Time, ws: seq<Write>, id: nat)
    requires AllJustified(cfg, db, now, ws) && AllInsertable(db, ws) && id < |db.calls|
    ensures db.calls <= ApplyAll(db, ws).calls
    ensures NoLooser(db.calls[id].direction, EffectiveInvalidation(db.calls, db.tightenings, id),
                     EffectiveInvalidation(ApplyAll(db, ws).calls, ApplyAll(db, ws).tightenings, id))
    decreases |ws|
  {
    hide Justified, Apply, EffectiveInvalidation;
    if ws != [] {
      WriteOnlyTightens(cfg, db, now, ws[0], id);
      WritesOnlyTighten(cfg, Apply(db, ws[0]), now, ws[1..], id);
    }
  }

  function GoverningInvalidation(db: Db, pos: Position): real
    requires pos.callId < |db.calls|
  {
    EffectiveInvalidation(db.calls, db.tightenings, CurrentCall(db.calls, pos.callId))
  }

  /** The live trigger is the higher of the entry trigger and the governing level rounded up to the cent. */
  lemma LiveTriggerIsTheHigher(pos: Position, level: real)
    requires pos.stopTrigger.Some?
    ensures var t := LiveTrigger(pos, level);
            && t >= pos.stopTrigger.value && t >= level && (t == pos.stopTrigger.value || (t == CeilCents(level) && t < level + 0.01))
  {
    hide CeilCents;
  }

  /** The ratchet: a share position held in two states of a run never trades under less than its entry trigger, and its
      live trigger has not dropped if the same call governs it in both. */
  lemma StopOnlyRatchets(cfg: Config, steps: seq<Step>, states: seq<State>, i: nat, j: nat, pos: Position)
    requires SaneRules(cfg.rules) && Run(cfg, steps, states) && i <= j < |states|
    requires pos in OpenPositions(states[i].db.proposals, states[i].db.fills) && pos.instrument.Shares?
    requires pos in OpenPositions(states[j].db.proposals, states[j].db.fills)
    ensures pos.callId < |states[i].db.calls| && pos.callId < |states[j].db.calls| && pos.stopTrigger.Some?
    ensures pos.stopTrigger.value <= LiveTrigger(pos, GoverningInvalidation(states[j].db, pos))
    ensures CurrentCall(states[i].db.calls, pos.callId) == CurrentCall(states[j].db.calls, pos.callId) ==>
              LiveTrigger(pos, GoverningInvalidation(states[i].db, pos)) <= LiveTrigger(pos, GoverningInvalidation(states[j].db, pos))
  {
    EveryStateIsGood(cfg, steps, states, i);
    EveryStateIsGood(cfg, steps, states, j);
    SharePosition(cfg, states[i], pos);
    SharePosition(cfg, states[j], pos);
    hide Good, Run, EffectiveInvalidation, CurrentCall, OpenPositions, CeilCents, LimitBelow;
    var cur := CurrentCall(states[i].db.calls, pos.callId);
    if cur == CurrentCall(states[j].db.calls, pos.callId) {
      InvalidationOnlyTightens(cfg, steps, states, i, j, cur);
      CeilCentsMonotone(GoverningInvalidation(states[i].db, pos), GoverningInvalidation(states[j].db, pos));
    }
  }

  /** What a good state says of an open share position. */
  lemma SharePosition(cfg: Config, s: State, pos: Position)
    requires Good(cfg, s) && pos in OpenPositions(s.db.proposals, s.db.fills) && pos.instrument.Shares?
    ensures pos.callId < |s.db.calls|
    ensures pos.stopTrigger.Some? && 0.0 < pos.stopTrigger.value
    ensures pos.stopLimit == Some(LimitBelow(pos.stopTrigger.value, cfg.rules))
    ensures CurrentCall(s.db.calls, pos.callId) < |s.db.calls|
    ensures s.db.calls[CurrentCall(s.db.calls, pos.callId)].direction.Up?
  {
    hide CallsOk, MoneyOk, PledgeOk, LimitBelow, CurrentCall;
    PositionIsItsBuy(s.db, pos);
    var b := FillsOf(s.db.fills, pos.proposal)[0];
    assert ProposalOk(s.db, s.db.proposals[pos.proposal]);
    assert GoodEntry(cfg, s.db, b);
    GoverningDirection(s.db, pos.callId);
  }

  lemma GoverningDirection(db: Db, id: nat)
    requires CallsOk(db) && id < |db.calls|
    ensures CurrentCall(db.calls, id) < |db.calls| && db.calls[CurrentCall(db.calls, id)].direction == db.calls[id].direction
  {
    CurrentIsCallOrItsExtension(db.calls, id);
  }

  /** Limit agreement: stored or recomputed, the limit is the same function of the live trigger, and below it. */
  lemma LimitFollowsTrigger(cfg: Config, steps: seq<Step>, states: seq<State>, i: nat, pos: Position)
    requires SaneRules(cfg.rules) && Run(cfg, steps, states) && i < |states|
    requires pos in OpenPositions(states[i].db.proposals, states[i].db.fills) && pos.instrument.Shares?
    ensures pos.callId < |states[i].db.calls|
    ensures var invalidation := GoverningInvalidation(states[i].db, pos);
            LiveLimit(pos, invalidation, cfg.rules) == Some(LimitBelow(LiveTrigger(pos, invalidation), cfg.rules))
            && LimitBelow(LiveTrigger(pos, invalidation), cfg.rules) < LiveTrigger(pos, invalidation)
  {
    EveryStateIsGood(cfg, steps, states, i);
    SharePosition(cfg, states[i], pos);
    hide Good, Run, LimitBelow, EffectiveInvalidation, CurrentCall;
    LimitSitsBelow(LiveTrigger(pos, GoverningInvalidation(states[i].db, pos)), cfg.rules);
  }

  // ----- extensions -----

  /** In every state, an extension points to an earlier call of the same name, direction and benchmark, no call is
      extended twice, no extension is extended, and following extensions from any call ends at that call or at its one
      extension. */
  lemma ExtensionsAreOneDeep(cfg: Config, steps: seq<Step>, states: seq<State>, i: nat, id: nat)
    requires SaneRules(cfg.rules) && Run(cfg, steps, states) && i < |states|
    ensures var calls := states[i].db.calls;
            && OneExtensionEach(calls)
            && (forall e :: 0 <= e < |calls| && calls[e].parent.Some? ==>
                  calls[e].parent.value < e && Continues(calls[e], calls[calls[e].parent.value]))
            && (CurrentCall(calls, id) == id
                || (CurrentCall(calls, id) < |calls| && calls[CurrentCall(calls, id)].parent == Some(id)))
            && (forall e :: 0 <= e < |calls| && calls[e].parent == Some(id) ==> CurrentCall(calls, id) == e)
  {
    EveryStateIsGood(cfg, steps, states, i);
    hide RowsOk, FillsOk, LifeOk, MoneyOk, PledgeOk, Run;
    CurrentIsCallOrItsExtension(states[i].db.calls, id);
  }
}
