/** The desk's calls as the scorer reads them (desk/scoring.py `load_open_items`), over every run. */
module DeskScores {
  import opened Basics
  import opened Calls
  import opened Sizing
  import opened Desk
  import opened DeskInvariant
  import opened DeskRuns
  import S = Scoring

  /** A row of `calls` as a scored item. */
  function CallItem(c: Call, id: nat): S.Item {
    S.Item(S.CallItem, id, c.symbol, c.direction, c.target, c.invalidation, if c.horizon < 0 then 0 else c.horizon,
           c.benchmark, c.session, Some(S.Refs(c.refPrice, c.spyRef, c.benchRef)))
  }

  lemma CallsAreMeasuredFromTheirStamp(item: S.Item, s: S.Series, r: S.Resolution)
    requires item.refs.Some? && S.Resolved(item, s) == Some(r)
    ensures r.refs == item.refs.value && !r.how.OpenThrough?
  {
    S.ResolvesAtFirstTouch(item, s, r);
    var days := S.Sessions(s.spy, item.session);
    var k: nat :| S.FirstTouch(item, s, days, k, r);
  }

  /** Signs over runs: whatever bars a call of a run is scored on, its target or gap-target is a strict gain and its
      invalidation or gap-invalidation a strict loss. */
  lemma EveryCallScoresWithItsSign(
      cfg: Config, steps: seq<Step>, states: seq<State>, i: nat, id: nat, s: S.Series, r: S.Resolution)
    requires SaneRules(cfg.rules) && Run(cfg, steps, states) && i < |states| && id < |states[i].db.calls|
    requires S.Resolved(CallItem(states[i].db.calls[id], id), s) == Some(r)
    ensures 0.0 < r.refs.price
    ensures r.how.Target? || r.how.GapTarget? ==> S.Return(CallItem(states[i].db.calls[id], id), r) > 0.0
    ensures r.how.Invalidation? || r.how.GapInvalidation? ==> S.Return(CallItem(states[i].db.calls[id], id), r) < 0.0
    ensures !r.how.OpenThrough?
  {
    EveryStateIsGood(cfg, steps, states, i);
    hide RowsOk, FillsOk, LifeOk, MoneyOk, PledgeOk, Run, S.Resolved, S.Return;
    var c := states[i].db.calls[id];
    assert LevelsStand(c);
    CallsAreMeasuredFromTheirStamp(CallItem(c, id), s, r);
    S.SignsOfOutcomes(CallItem(c, id), s, r);
  }
}
