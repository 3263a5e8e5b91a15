/** The scoring pass and its ledger (desk/scoring.py: load_open_items, insert_resolution, score), night after night. */
module ScoringNights {
  import opened Basics
  import opened Scoring

  type History = map<string, seq<Bar>>

  datatype Key = Key(kind: Kind, id: nat)

  type Ledger = map<Key, Resolution>

  function KeyOf(item: Item): Key { Key(item.kind, item.id) }

  function BarsFor(h: History, symbol: string): seq<Bar> { if symbol in h then h[symbol] else [] }

  function SeriesFor(h: History, item: Item): Series {
    Series(BarsFor(h, item.symbol), BarsFor(h, "SPY"), BarsFor(h, item.benchmark))
  }

  /** The answer the whole stored history gives. */
  function Answer(h: History, item: Item): Option<Resolution> { Resolved(item, SeriesFor(h, item)) }

  /** Where an answer's prices come from: the item's own bars, the index's and its benchmark's, on the day it ends. */
  lemma AnswerReadsItsThreeSeries(h: History, item: Item, r: Resolution)
    requires Answer(h, item) == Some(r)
    ensures item.symbol in h && "SPY" in h && item.benchmark in h
    ensures exists b :: b in h["SPY"] && b.date == r.day && (r.spyExit == b.open || r.spyExit == b.close)
    ensures exists b :: b in h[item.benchmark] && b.date == r.day && (r.benchExit == b.open || r.benchExit == b.close)
    ensures exists b :: b in h[item.symbol] && b.date == r.day
                        && (r.exit == b.open || r.exit == b.close || r.exit == item.target || r.exit == item.invalidation)
  {
    var s := SeriesFor(h, item);
    var days := Sessions(s.spy, item.session);
    ResolvesAtFirstTouch(item, s, r);
    var n: nat :| FirstTouch(item, s, days, n, r);
    hide Resolved, Sessions;
    assert At(s.own, days[n]).value in s.own && At(s.spy, days[n]).value in s.spy && At(s.bench, days[n]).value in s.bench;
  }

  /** Items without a resolution yet, in order. */
  function OpenItems(ledger: Ledger, items: seq<Item>): (open: seq<Item>)
    ensures forall i :: i in open <==> i in items && KeyOf(i) !in ledger
  {
    if items == [] then []
    else
      var init := OpenItems(ledger, items[..|items| - 1]);
      var last := items[|items| - 1];
      if KeyOf(last) in ledger then init else init + [last]
  }

  method Earliest(items: seq<Item>) returns (day: int)
    requires items != []
    ensures forall i :: i in items ==> day <= i.session
    ensures exists i :: i in items && i.session == day
  {
    day := items[0].session;
    for k := 1 to |items|
      invariant forall j :: 0 <= j < k ==> day <= items[j].session
      invariant exists j :: 0 <= j < k && items[j].session == day
    {
      if items[k].session < day {
        day := items[k].session;
      }
    }
  }

  /** True when this pass wrote the row; an existing row is never replaced. */
  method InsertResolution(ledger: Ledger, key: Key, r: Resolution) returns (after: Ledger, wrote: bool)
    ensures wrote == (key !in ledger)
    ensures after == if key in ledger then ledger else ledger[key := r]
  {
    wrote := key !in ledger;
    after := if wrote then ledger[key := r] else ledger;
  }

  /** What a pass leaves: old rows untouched, and a row for each item that the whole history answers. */
  ghost predicate ScoredOnce(before: Ledger, items: seq<Item>, h: History, after: Ledger) {
    && (forall key :: key in before ==> key in after && after[key] == before[key])
    && (forall i :: i in items && KeyOf(i) !in before && Answer(h, i).Some? ==>
          KeyOf(i) in after && after[KeyOf(i)] == Answer(h, i).value)
    && (forall key :: key in after && key !in before ==>
          exists i :: i in items && KeyOf(i) == key && Answer(h, i) == Some(after[key]))
  }

  ghost predicate DistinctKeys(items: seq<Item>) {
    forall i, j :: i in items && j in items && KeyOf(i) == KeyOf(j) ==> i == j
  }

  /** One scoring pass, on bars cut off before the earliest open session, leaves what the whole history would. */
  method Score(before: Ledger, items: seq<Item>, h: History) returns (after: Ledger)
    requires DistinctKeys(items)
    ensures ScoredOnce(before, items, h, after)
  {
    hide ScoredOnce, Resolved, DistinctKeys;
    var open := OpenItems(before, items);
    after := before;
    NothingScoredYet(before, h);
    if open == [] {
      ResolvedItemsAddNothing(before, items, h, after);
      return;
    }
    var earliest := Earliest(open);
    for k := 0 to |open|
      invariant ScoredOnce(before, open[..k], h, after)
    {
      var item := open[k];
      assert item in open;
      var series := SeriesSince(SeriesFor(h, item), earliest);
      TruncationChangesNothing(item, SeriesFor(h, item), earliest);
      ghost var prior := after;
      var r := Resolve(item, series);
      if r.Some? {
        var next, _ := InsertResolution(after, KeyOf(item), r.value);
        after := next;
      }
      ScoreOneMore(before, open[..k], items, h, item, prior, after);
      assert open[..k + 1] == open[..k] + [item];
    }
    assert open[..|open|] == open;
    ResolvedItemsAddNothing(before, items, h, after);
  }

  lemma NothingScoredYet(before: Ledger, h: History)
    ensures ScoredOnce(before, [], h, before)
  {
  }

  lemma ResolvedItemsAddNothing(before: Ledger, items: seq<Item>, h: History, after: Ledger)
    requires ScoredOnce(before, OpenItems(before, items), h, after)
    ensures ScoredOnce(before, items, h, after)
  {
  }

  lemma ScoreOneMore(
      before: Ledger, done: seq<Item>, items: seq<Item>, h: History, item: Item, prior: Ledger, after: Ledger)
    requires ScoredOnce(before, done, h, prior) && DistinctKeys(items) && item in items && KeyOf(item) !in before
    requires forall i :: i in done ==> i in items
    requires after == if Answer(h, item).None? || KeyOf(item) in prior then prior else prior[KeyOf(item) := Answer(h, item).value]
    ensures ScoredOnce(before, done + [item], h, after)
  {
    hide Answer, KeyOf;
    var all := done + [item];
    assert item in all && forall i :: i in done ==> i in all;
    forall key | key in after && key !in before
      ensures exists i :: i in all && KeyOf(i) == key && Answer(h, i) == Some(after[key])
    {
      if key in prior {
        var i :| i in done && KeyOf(i) == key && Answer(h, i) == Some(prior[key]);
        assert i in all;
      } else {
        assert item in all && KeyOf(item) == key;
      }
    }
    forall i | i in all && KeyOf(i) !in before && Answer(h, i).Some?
      ensures KeyOf(i) in after && after[KeyOf(i)] == Answer(h, i).value
    {
      if i == item && KeyOf(i) in prior {
        var j :| j in done && KeyOf(j) == KeyOf(i) && Answer(h, j) == Some(prior[KeyOf(i)]);
        assert i == j;
      }
    }
  }

  // ----- night after night -----

  /** The ledger holds exactly the items the history answers, each with that answer. */
  ghost predicate ScoredAtOnce(ledger: Ledger, items: seq<Item>, h: History) {
    ScoredOnce(map[], items, h, ledger)
  }

  /** Stored bars stay, for any symbol bars may arrive late, and new market sessions are later than the old ones. */
  ghost predicate HistoryGrows(a: History, b: History) {
    && Grows(BarsFor(a, "SPY"), BarsFor(b, "SPY"))
    && forall symbol, d :: At(BarsFor(a, symbol), d).Some? ==> At(BarsFor(b, symbol), d) == At(BarsFor(a, symbol), d)
  }

  lemma GrowthKeepsAnswers(a: History, b: History, item: Item)
    requires HistoryGrows(a, b) && Answer(a, item).Some?
    ensures Answer(b, item) == Answer(a, item)
  {
    GrowthKeepsSessions(BarsFor(a, "SPY"), BarsFor(b, "SPY"), item.session);
    AnswersAreStable(item, SeriesFor(a, item), SeriesFor(b, item));
  }

  /** Nights of scoring: histories that only grow, item lists that may gain items and lose withdrawn ones, and the ledger
      each pass leaves. A scored item stays: a pitch can only be withdrawn before its session opens. */
  ghost predicate Nights(items: seq<seq<Item>>, hs: seq<History>, ledgers: seq<Ledger>) {
    && |items| == |hs| && |ledgers| == |hs| + 1 && ledgers[0] == map[]
    && (forall n :: 0 <= n < |hs| ==> DistinctKeys(items[n]) && ScoredOnce(ledgers[n], items[n], hs[n], ledgers[n + 1]))
    && (forall n :: 0 <= n < |hs| - 1 ==> HistoryGrows(hs[n], hs[n + 1]) && ScoredStay(items[n], ledgers[n + 1], items[n + 1]))
  }

  ghost predicate ScoredStay(items: seq<Item>, ledger: Ledger, items': seq<Item>) {
    forall i :: i in items && KeyOf(i) in ledger ==> i in items'
  }

  lemma NextNight(before: Ledger, items: seq<Item>, h: History, items': seq<Item>, h': History, after: Ledger)
    requires ScoredAtOnce(before, items, h) && DistinctKeys(items')
    requires HistoryGrows(h, h') && ScoredStay(items, before, items')
    requires ScoredOnce(before, items', h', after)
    ensures ScoredAtOnce(after, items', h')
  {
    forall key | key in after
      ensures exists i :: i in items' && KeyOf(i) == key && Answer(h', i) == Some(after[key])
    {
      if key in before {
        var i :| i in items && KeyOf(i) == key && Answer(h, i) == Some(before[key]);
        GrowthKeepsAnswers(h, h', i);
      }
    }
    forall i | i in items' && Answer(h', i).Some? ensures KeyOf(i) in after && after[KeyOf(i)] == Answer(h', i).value {
      if KeyOf(i) in before {
        var j :| j in items && KeyOf(j) == KeyOf(i) && Answer(h, j) == Some(before[KeyOf(i)]);
        assert i == j;
        GrowthKeepsAnswers(h, h', i);
      }
    }
  }

  /** Scoring every evening leaves the ledger that scoring once, at the end, on the full history would leave. */
  lemma {:induction false} NightlyIsOnceAtTheEnd(items: seq<seq<Item>>, hs: seq<History>, ledgers: seq<Ledger>, n: nat)
    requires Nights(items, hs, ledgers) && n < |hs|
    ensures ScoredAtOnce(ledgers[n + 1], items[n], hs[n])
  {
    hide ScoredOnce, HistoryGrows, DistinctKeys, ScoredStay;
    if n > 0 {
      NightlyIsOnceAtTheEnd(items, hs, ledgers, n - 1);
      NextNight(ledgers[n], items[n - 1], hs[n - 1], items[n], hs[n], ledgers[n + 1]);
    }
  }

  /** And that ledger is unique. */
  lemma OnceIsUnique(a: Ledger, b: Ledger, items: seq<Item>, h: History)
    requires ScoredAtOnce(a, items, h) && ScoredAtOnce(b, items, h) && DistinctKeys(items)
    ensures a == b
  {
    forall key | key in a ensures key in b && a[key] == b[key] {
      var i :| i in items && KeyOf(i) == key && Answer(h, i) == Some(a[key]);
    }
    forall key | key in b ensures key in a && a[key] == b[key] {
      var i :| i in items && KeyOf(i) == key && Answer(h, i) == Some(b[key]);
    }
    assert a.Keys == b.Keys;
  }
}
