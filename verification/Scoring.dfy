/** Scoring a pitch or a call from stored bars (desk/scoring.py). The three percentage returns divide by reference
    prices; here a resolution keeps the prices, and the returns are functions of it. */
module Scoring {
  import opened Basics
  import opened Ledger

  datatype Bar = Bar(date: int, open: real, high: real, low: real, close: real)

  datatype Kind = PitchItem | CallItem

  /** The prices a call was stamped with; a pitch has none and is measured from its session's opening print. */
  datatype Refs = Refs(price: real, spy: real, bench: real)

  datatype Item = Item(
    kind: Kind, id: nat, symbol: string, direction: Direction, target: real, invalidation: real, horizon: nat,
    benchmark: string, session: int, refs: Option<Refs>)

  datatype Resolution = Resolution(
    refDate: int, refs: Refs, day: int, how: How, exit: real, spyExit: real, benchExit: real)

  /** The three series a resolution reads. */
  datatype Series = Series(own: seq<Bar>, spy: seq<Bar>, bench: seq<Bar>)

  /** The bar stored for a date; with two, the later entry. */
  function At(bars: seq<Bar>, d: int): (r: Option<Bar>)
    ensures r.Some? ==> r.value in bars && r.value.date == d
    ensures r.None? ==> forall b :: b in bars ==> b.date != d
  {
    if bars == [] then None
    else if bars[|bars| - 1].date == d then Some(bars[|bars| - 1])
    else At(bars[..|bars| - 1], d)
  }

  /** Of two bars on a date the later entry counts. */
  lemma {:induction false} LaterEntryCounts(bars: seq<Bar>, d: int, k: nat)
    requires k < |bars| && bars[k].date == d && forall j :: k < j < |bars| ==> bars[j].date != d
    ensures At(bars, d) == Some(bars[k])
  {
    if k < |bars| - 1 { LaterEntryCounts(bars[..|bars| - 1], d, k); }
  }

  /** Market sessions from `from` on: the benchmark index's dates. */
  function Sessions(spy: seq<Bar>, from: int): (days: seq<int>)
    ensures forall d :: d in days ==> from <= d && At(spy, d).Some?
  {
    if spy == [] then []
    else
      var days := Sessions(spy[..|spy| - 1], from);
      var last := spy[|spy| - 1];
      if last.date >= from then days + [last.date] else days
  }

  /** The sessions are exactly the index's dates from that day on, in its order. */
  lemma {:induction false} SessionsAreTheIndexDates(spy: seq<Bar>, from: int, d: int)
    ensures d in Sessions(spy, from) <==> from <= d && exists k :: 0 <= k < |spy| && spy[k].date == d
    ensures (forall i, j :: 0 <= i < j < |spy| ==> spy[i].date < spy[j].date) ==>
              forall i, j :: 0 <= i < j < |Sessions(spy, from)| ==> Sessions(spy, from)[i] < Sessions(spy, from)[j]
  {
    if spy != [] {
      var init, last := spy[..|spy| - 1], spy[|spy| - 1];
      SessionsAreTheIndexDates(init, from, d);
      if exists k :: 0 <= k < |init| && init[k].date == d {
        var k :| 0 <= k < |init| && init[k].date == d;
        assert spy[k].date == d;
      }
      if k :| 0 <= k < |spy| && spy[k].date == d {
        if k < |init| { assert init[k].date == d; }
      }
      forall i | 0 <= i < |Sessions(init, from)| ensures exists k :: 0 <= k < |init| && init[k].date == Sessions(init, from)[i] {
        SessionsAreTheIndexDates(init, from, Sessions(init, from)[i]);
        assert Sessions(init, from)[i] in Sessions(init, from);
      }
    }
  }

  predicate ThroughTarget(item: Item, p: real) { if item.direction.Up? then p >= item.target else p <= item.target }

  predicate ThroughInvalidation(item: Item, p: real) {
    if item.direction.Up? then p <= item.invalidation else p >= item.invalidation
  }

  /** The favourable and the adverse extreme of a bar. */
  function Best(item: Item, b: Bar): real { if item.direction.Up? then b.high else b.low }

  function Worst(item: Item, b: Bar): real { if item.direction.Up? then b.low else b.high }

  /** How a session ends the item: nothing, or a kind, an exit price and whether it is at the open. */
  datatype Ending = Quiet | Ends(how: How, exit: real, atOpen: bool)

  /** Session `k` of the horizon (the first is 1), given its bar. */
  function EndingOn(item: Item, b: Bar, k: nat): Ending {
    if k == 1 && item.refs.None? && (ThroughTarget(item, b.open) || ThroughInvalidation(item, b.open)) then
      Ends(OpenThrough, b.open, true)
    else if k > 1 && ThroughTarget(item, b.open) then Ends(GapTarget, b.open, true)
    else if k > 1 && ThroughInvalidation(item, b.open) then Ends(GapInvalidation, b.open, true)
    else if (k > 1 || item.refs.None?) && ThroughInvalidation(item, Worst(item, b)) then
      Ends(Invalidation, item.invalidation, false)
    else if (k > 1 || item.refs.None?) && ThroughTarget(item, Best(item, b)) then Ends(Target, item.target, false)
    else if k == item.horizon then Ends(Horizon, b.close, false)
    else Quiet
  }

  /** The reference prices, once the first session has its bars. */
  function Reference(item: Item, s: Series, start: int): Option<Refs> {
    var own, spy, bench := At(s.own, start), At(s.spy, start), At(s.bench, start);
    if own.None? || bench.None? || spy.None? then None
    else if item.refs.Some? then item.refs
    else Some(Refs(own.value.open, spy.value.open, bench.value.open))
  }

  function Done(item: Item, s: Series, start: int, refs: Refs, day: int, e: Ending): Option<Resolution>
    requires e.Ends?
  {
    var spy, bench := At(s.spy, day), At(s.bench, day);
    if spy.None? || bench.None? then None
    else
      Some(Resolution(start, refs, day, e.how, e.exit,
                      if e.atOpen then spy.value.open else spy.value.close,
                      if e.atOpen then bench.value.open else bench.value.close))
  }

  /** The sessions from index `k` on, one by one. */
  function Scan(item: Item, s: Series, days: seq<int>, refs: Refs, k: nat): Option<Resolution>
    requires days != []
    decreases |days| - k
  {
    if k >= item.horizon || k >= |days| then None
    else
      var b := At(s.own, days[k]);
      if b.None? then None
      else
        var e := EndingOn(item, b.value, k + 1);
        if e.Ends? then Done(item, s, days[0], refs, days[k], e) else Scan(item, s, days, refs, k + 1)
  }

  function Resolved(item: Item, s: Series): Option<Resolution> {
    var days := Sessions(s.spy, item.session);
    if days == [] then None
    else
      var refs := Reference(item, s, days[0]);
      if refs.None? then None else Scan(item, s, days, refs.value, 0)
  }

  /** resolve: the early-return loop over the horizon's sessions. */
  method Resolve(item: Item, s: Series) returns (r: Option<Resolution>)
    ensures r == Resolved(item, s)
  {
    var days := Sessions(s.spy, item.session);
    if days == [] {
      return None;
    }
    var start := days[0];
    var refs := Reference(item, s, start);
    if refs.None? {
      return None;
    }
    var k := 0;
    while k < item.horizon && k < |days|
      invariant 0 <= k
      invariant Scan(item, s, days, refs.value, k) == Scan(item, s, days, refs.value, 0)
    {
      var day := days[k];
      var found := At(s.own, day);
      if found.None? {
        return None;
      }
      var b := found.value;
      if k == 0 && item.refs.None? {
        if ThroughTarget(item, b.open) || ThroughInvalidation(item, b.open) {
          return Done(item, s, start, refs.value, day, Ends(OpenThrough, b.open, true));
        }
      }
      if k > 0 {
        if ThroughTarget(item, b.open) {
          return Done(item, s, start, refs.value, day, Ends(GapTarget, b.open, true));
        }
        if ThroughInvalidation(item, b.open) {
          return Done(item, s, start, refs.value, day, Ends(GapInvalidation, b.open, true));
        }
      }
      if k > 0 || item.refs.None? {
        if ThroughInvalidation(item, Worst(item, b)) {
          return Done(item, s, start, refs.value, day, Ends(Invalidation, item.invalidation, false));
        }
        if ThroughTarget(item, Best(item, b)) {
          return Done(item, s, start, refs.value, day, Ends(Target, item.target, false));
        }
      }
      if k + 1 == item.horizon {
        return Done(item, s, start, refs.value, day, Ends(Horizon, b.close, false));
      }
      k := k + 1;
    }
    return None;
  }

  // ----- the first-touch specification -----

  /** Session `k` (from 0) counts for level touches: every session of a pitch, and a call's from its second on. */
  predicate Counts(item: Item, k: nat) { k > 0 || item.refs.None? }

  // The specification is written on prices, apart from the code's own tests.

  predicate OpensAtTarget(item: Item, b: Bar) {
    (item.direction.Up? && b.open >= item.target) || (item.direction.Down? && b.open <= item.target)
  }

  predicate OpensAtInvalidation(item: Item, b: Bar) {
    (item.direction.Up? && b.open <= item.invalidation) || (item.direction.Down? && b.open >= item.invalidation)
  }

  predicate ReachesTarget(item: Item, b: Bar) {
    (item.direction.Up? && b.high >= item.target) || (item.direction.Down? && b.low <= item.target)
  }

  predicate ReachesInvalidation(item: Item, b: Bar) {
    (item.direction.Up? && b.low <= item.invalidation) || (item.direction.Down? && b.high >= item.invalidation)
  }

  /** A level is met in session `k`: at its open, or inside its range. */
  ghost predicate Touches(item: Item, b: Bar, k: nat) {
    && Counts(item, k)
    && (OpensAtTarget(item, b) || OpensAtInvalidation(item, b) || ReachesTarget(item, b) || ReachesInvalidation(item, b))
  }

  /** What the first touched session reports. A level met at the open wins (the target first, on a gap); inside the
      range the invalidation wins a bar that holds both; with no touch it is the last session of the horizon, at its close. */
  ghost predicate ReportedAs(item: Item, b: Bar, k: nat, how: How, exit: real) {
    match how
    case OpenThrough => k == 0 && item.refs.None? && exit == b.open && (OpensAtTarget(item, b) || OpensAtInvalidation(item, b))
    case GapTarget => k > 0 && exit == b.open && OpensAtTarget(item, b)
    case GapInvalidation => k > 0 && exit == b.open && OpensAtInvalidation(item, b) && !OpensAtTarget(item, b)
    case Invalidation =>
      && Counts(item, k) && exit == item.invalidation && ReachesInvalidation(item, b)
      && !OpensAtTarget(item, b) && !OpensAtInvalidation(item, b)
    case Target =>
      && Counts(item, k) && exit == item.target && ReachesTarget(item, b)
      && !OpensAtTarget(item, b) && !OpensAtInvalidation(item, b) && !ReachesInvalidation(item, b)
    case Horizon => k + 1 == item.horizon && exit == b.close && !Touches(item, b, k)
  }

  /** The prices the item is measured from: its own stamp, or the opening prints of its first session; and all three
      series have that session. */
  ghost predicate ReferredTo(item: Item, s: Series, start: int, refs: Refs) {
    && At(s.own, start).Some? && At(s.spy, start).Some? && At(s.bench, start).Some?
    && if item.refs.Some? then refs == item.refs.value
       else
         && refs.price == At(s.own, start).value.open && refs.spy == At(s.spy, start).value.open
         && refs.bench == At(s.bench, start).value.open
  }

  predicate AtOpen(how: How) { how.OpenThrough? || how.GapTarget? || how.GapInvalidation? }

  /** `r` is the item's outcome at session `k`: every earlier session has a bar that meets no level, and `k` is the
      first that ends it. */
  ghost predicate FirstTouch(item: Item, s: Series, days: seq<int>, k: nat, r: Resolution) {
    && k < |days| && k < item.horizon
    && ReferredTo(item, s, days[0], r.refs) && r.refDate == days[0] && r.day == days[k]
    && (forall j :: 0 <= j < k ==> At(s.own, days[j]).Some? && !Touches(item, At(s.own, days[j]).value, j))
    && At(s.own, days[k]).Some? && ReportedAs(item, At(s.own, days[k]).value, k, r.how, r.exit)
    && At(s.spy, days[k]).Some? && At(s.bench, days[k]).Some?
    && r.spyExit == (if AtOpen(r.how) then At(s.spy, days[k]).value.open else At(s.spy, days[k]).value.close)
    && r.benchExit == (if AtOpen(r.how) then At(s.bench, days[k]).value.open else At(s.bench, days[k]).value.close)
  }

  lemma EndingMeansReported(item: Item, b: Bar, k: nat, e: Ending)
    requires EndingOn(item, b, k + 1) == e && k < item.horizon
    ensures e.Ends? ==> ReportedAs(item, b, k, e.how, e.exit) && e.atOpen == AtOpen(e.how)
    ensures e.Quiet? ==> !Touches(item, b, k) && k + 1 != item.horizon
    ensures forall how, exit :: ReportedAs(item, b, k, how, exit) ==> e.Ends? && e.how == how && e.exit == exit
    ensures !Touches(item, b, k) && k + 1 < item.horizon ==> e.Quiet?
  {
  }

  lemma {:induction false} ScanIsFirstTouch(item: Item, s: Series, days: seq<int>, refs: Refs, k: nat, r: Resolution)
    requires days != [] && Reference(item, s, days[0]) == Some(refs)
    requires forall j :: 0 <= j < k && j < |days| ==> At(s.own, days[j]).Some? && !Touches(item, At(s.own, days[j]).value, j)
    ensures Scan(item, s, days, refs, k) == Some(r) <==> HasFirstTouch(item, s, days, k, r)
    decreases |days| - k
  {
    if k < item.horizon && k < |days| && At(s.own, days[k]).Some? {
      var b := At(s.own, days[k]).value;
      var e := EndingOn(item, b, k + 1);
      EndingMeansReported(item, b, k, e);
      if e.Quiet? {
        ScanIsFirstTouch(item, s, days, refs, k + 1, r);
        assert FirstTouch(item, s, days, k, r) ==> ReportedAs(item, b, k, r.how, r.exit);
      } else {
        if Scan(item, s, days, refs, k) == Some(r) {
          assert FirstTouch(item, s, days, k, r);
        }
        forall n: nat | k <= n && FirstTouch(item, s, days, n, r) ensures n == k {
          EndedSessionIsTheFirst(item, s, days, k, n, r);
        }
      }
    } else {
      forall n: nat | k <= n ensures !FirstTouch(item, s, days, n, r) {
      }
    }
  }

  /** Nothing after the first session that ends the item is a first touch. */
  lemma EndedSessionIsTheFirst(item: Item, s: Series, days: seq<int>, k: nat, n: nat, r: Resolution)
    requires k < |days| && k < item.horizon && At(s.own, days[k]).Some? && EndingOn(item, At(s.own, days[k]).value, k + 1).Ends?
    requires k <= n && FirstTouch(item, s, days, n, r)
    ensures n == k
  {
    EndingMeansReported(item, At(s.own, days[k]).value, k, EndingOn(item, At(s.own, days[k]).value, k + 1));
  }

  /** Some session of the horizon is the item's first touch, with this outcome. */
  ghost predicate HasFirstTouch(item: Item, s: Series, days: seq<int>, from: nat, r: Resolution) {
    exists n: nat :: from <= n && FirstTouch(item, s, days, n, r)
  }

  /** resolve refines the first-touch specification, in both directions. */
  lemma ResolvesAtFirstTouch(item: Item, s: Series, r: Resolution)
    ensures Resolved(item, s) == Some(r) <==> HasFirstTouch(item, s, Sessions(s.spy, item.session), 0, r)
  {
    var days := Sessions(s.spy, item.session);
    if days != [] {
      var refs := Reference(item, s, days[0]);
      if refs.Some? {
        ScanIsFirstTouch(item, s, days, refs.value, 0, r);
      }
    }
  }

  /** It always answers once the whole horizon has its bars. */
  lemma AnswersWhenBarsExist(item: Item, s: Series)
    requires var days := Sessions(s.spy, item.session);
             && 1 <= item.horizon <= |days|
             && forall j :: 0 <= j < item.horizon ==> At(s.own, days[j]).Some? && At(s.bench, days[j]).Some?
    ensures Resolved(item, s).Some?
  {
    var days := Sessions(s.spy, item.session);
    assert days[0] in days;
    ScanAnswers(item, s, days, Reference(item, s, days[0]).value, 0);
  }

  lemma {:induction false} ScanAnswers(item: Item, s: Series, days: seq<int>, refs: Refs, k: nat)
    requires days == Sessions(s.spy, item.session) && k < item.horizon <= |days|
    requires forall j :: 0 <= j < item.horizon ==> At(s.own, days[j]).Some? && At(s.bench, days[j]).Some?
    ensures Scan(item, s, days, refs, k).Some?
    decreases |days| - k
  {
    assert days[k] in days;
    if EndingOn(item, At(s.own, days[k]).value, k + 1).Quiet? {
      ScanAnswers(item, s, days, refs, k + 1);
    }
  }

  // ----- history growth and truncation -----

  /** Every bar found on or after `from` is still found, unchanged. */
  ghost predicate KeepsBars(a: seq<Bar>, b: seq<Bar>, from: int) {
    forall d :: from <= d && At(a, d).Some? ==> At(b, d) == At(a, d)
  }

  /** `b` is `a` with later sessions and possibly late bars added. */
  ghost predicate Extends(a: Series, b: Series, from: int) {
    && Sessions(a.spy, from) <= Sessions(b.spy, from)
    && KeepsBars(a.own, b.own, from) && KeepsBars(a.spy, b.spy, from) && KeepsBars(a.bench, b.bench, from)
  }

  lemma {:induction false} ScanIsStable(item: Item, a: Series, b: Series, refs: Refs, k: nat)
    requires Extends(a, b, item.session) && Sessions(a.spy, item.session) != []
    requires Scan(item, a, Sessions(a.spy, item.session), refs, k).Some?
    ensures Scan(item, b, Sessions(b.spy, item.session), refs, k) == Scan(item, a, Sessions(a.spy, item.session), refs, k)
    decreases |Sessions(a.spy, item.session)| - k
  {
    var days := Sessions(a.spy, item.session);
    assert days[k] in days && days[0] in days && Sessions(b.spy, item.session)[k] == days[k];
    if EndingOn(item, At(a.own, days[k]).value, k + 1).Quiet? {
      ScanIsStable(item, a, b, refs, k + 1);
    }
  }

  /** Scoring is stable: an answer given on some bars is the answer on any history that extends them. */
  lemma AnswersAreStable(item: Item, a: Series, b: Series)
    requires Extends(a, b, item.session) && Resolved(item, a).Some?
    ensures Resolved(item, b) == Resolved(item, a)
  {
    var days := Sessions(a.spy, item.session);
    assert days[0] in days;
    ScanIsStable(item, a, b, Reference(item, a, days[0]).value, 0);
  }

  /** New sessions are appended, all later than the old ones, and stored bars are not changed. */
  ghost predicate Grows(a: seq<Bar>, b: seq<Bar>) {
    a <= b && forall x, y :: x in a && y in b[|a|..] ==> x.date < y.date
  }

  lemma {:induction false} GrowthKeepsSessions(a: seq<Bar>, b: seq<Bar>, from: int)
    requires Grows(a, b)
    ensures Sessions(a, from) <= Sessions(b, from) && KeepsBars(a, b, from)
    decreases |b|
  {
    if |a| < |b| {
      var init, last := b[..|b| - 1], b[|b| - 1];
      assert b[|a|..] == init[|a|..] + [last];
      GrowthKeepsSessions(a, init, from);
      forall d | from <= d && At(a, d).Some? ensures At(b, d) == At(a, d) {
        assert At(a, d).value in a && last in b[|a|..];
      }
    } else {
      assert a == b;
    }
  }

  /** The bars dated on or after `since`. */
  function Since(bars: seq<Bar>, since: int): seq<Bar> {
    if bars == [] then []
    else
      var init := Since(bars[..|bars| - 1], since);
      if bars[|bars| - 1].date >= since then init + [bars[|bars| - 1]] else init
  }

  lemma {:induction false} SinceKeepsBars(bars: seq<Bar>, since: int, d: int)
    requires since <= d
    ensures At(Since(bars, since), d) == At(bars, d)
  {
    if bars != [] {
      SinceKeepsBars(bars[..|bars| - 1], since, d);
      var init := Since(bars[..|bars| - 1], since);
      if bars[|bars| - 1].date >= since {
        Snoc(init, bars[|bars| - 1]);
      }
    }
  }

  lemma {:induction false} SinceKeepsSessions(bars: seq<Bar>, since: int, from: int)
    requires since <= from
    ensures Sessions(Since(bars, since), from) == Sessions(bars, from)
  {
    if bars != [] {
      SinceKeepsSessions(bars[..|bars| - 1], since, from);
      var init := Since(bars[..|bars| - 1], since);
      if bars[|bars| - 1].date >= since {
        Snoc(init, bars[|bars| - 1]);
      }
    }
  }

  function SeriesSince(s: Series, since: int): Series {
    Series(Since(s.own, since), Since(s.spy, since), Since(s.bench, since))
  }

  /** Dropping bars before the item's session, as a scoring pass does, changes nothing. */
  lemma TruncationChangesNothing(item: Item, s: Series, since: int)
    requires since <= item.session
    ensures Resolved(item, SeriesSince(s, since)) == Resolved(item, s)
  {
    var t := SeriesSince(s, since);
    SinceKeepsSessions(s.spy, since, item.session);
    forall d | item.session <= d
      ensures At(t.own, d) == At(s.own, d) && At(t.spy, d) == At(s.spy, d) && At(t.bench, d) == At(s.bench, d)
    {
      SinceKeepsBars(s.own, since, d);
      SinceKeepsBars(s.spy, since, d);
      SinceKeepsBars(s.bench, since, d);
    }
    if Resolved(item, s).Some? {
      AnswersAreStable(item, s, t);
    } else if Resolved(item, t).Some? {
      AnswersAreStable(item, t, s);
    }
  }

  // ----- up and down -----

  function MirrorBar(b: Bar, c: real): Bar { Bar(b.date, c - b.open, c - b.low, c - b.high, c - b.close) }

  function MirrorBars(bars: seq<Bar>, c: real): seq<Bar> {
    if bars == [] then [] else MirrorBars(bars[..|bars| - 1], c) + [MirrorBar(bars[|bars| - 1], c)]
  }

  function Flip(d: Direction): Direction { if d.Up? then Down else Up }

  /** The item and its own bars reflected about a price, with the direction flipped; the two indices stay. */
  function MirrorItem(item: Item, c: real): Item {
    item.(direction := Flip(item.direction), target := c - item.target, invalidation := c - item.invalidation,
          refs := if item.refs.None? then None else Some(item.refs.value.(price := c - item.refs.value.price)))
  }

  function MirrorSeries(s: Series, c: real): Series { s.(own := MirrorBars(s.own, c)) }

  function MirrorResolution(r: Resolution, c: real): Resolution {
    r.(refs := r.refs.(price := c - r.refs.price), exit := c - r.exit)
  }

  lemma {:induction false} MirrorAt(bars: seq<Bar>, c: real, d: int)
    ensures At(MirrorBars(bars, c), d) == (if At(bars, d).None? then None else Some(MirrorBar(At(bars, d).value, c)))
  {
    if bars != [] {
      var init, last := bars[..|bars| - 1], bars[|bars| - 1];
      MirrorAt(init, c, d);
      Snoc(MirrorBars(init, c), MirrorBar(last, c));
    }
  }

  lemma MirrorEnding(item: Item, b: Bar, k: nat, c: real)
    ensures EndingOn(MirrorItem(item, c), MirrorBar(b, c), k) ==
            var e := EndingOn(item, b, k);
            if e.Quiet? then Quiet else Ends(e.how, c - e.exit, e.atOpen)
  {
  }

  lemma {:induction false} MirrorScan(item: Item, s: Series, days: seq<int>, refs: Refs, k: nat, c: real)
    requires days != []
    ensures Scan(MirrorItem(item, c), MirrorSeries(s, c), days, refs.(price := c - refs.price), k) ==
            var r := Scan(item, s, days, refs, k);
            if r.None? then None else Some(MirrorResolution(r.value, c))
    decreases |days| - k
  {
    if k < item.horizon && k < |days| {
      MirrorAt(s.own, c, days[k]);
      if At(s.own, days[k]).Some? {
        MirrorEnding(item, At(s.own, days[k]).value, k + 1, c);
        MirrorScan(item, s, days, refs, k + 1, c);
      }
    }
  }

  /** Symmetry: the reflected item resolves on the same day, in the same way, at the reflected price. */
  lemma UpAndDownMirror(item: Item, s: Series, c: real)
    ensures Resolved(MirrorItem(item, c), MirrorSeries(s, c)) ==
            var r := Resolved(item, s);
            if r.None? then None else Some(MirrorResolution(r.value, c))
  {
    var days := Sessions(s.spy, item.session);
    if days != [] {
      MirrorAt(s.own, c, days[0]);
      var refs := Reference(item, s, days[0]);
      if refs.Some? {
        MirrorScan(item, s, days, refs.value, 0, c);
      }
    }
  }

  // ----- signs -----

  function Move(from: real, to: real): real
    requires from != 0.0
  {
    (to - from) / from * 100.0
  }

  /** The direction-signed return, and the direction-signed benchmark return; the index return is not signed. */
  function Return(item: Item, r: Resolution): real
    requires r.refs.price != 0.0
  {
    if item.direction.Up? then Move(r.refs.price, r.exit) else -Move(r.refs.price, r.exit)
  }

  function SpyReturn(r: Resolution): real
    requires r.refs.spy != 0.0
  {
    Move(r.refs.spy, r.spyExit)
  }

  function BenchReturn(item: Item, r: Resolution): real
    requires r.refs.bench != 0.0
  {
    if item.direction.Up? then Move(r.refs.bench, r.benchExit) else -Move(r.refs.bench, r.benchExit)
  }

  /** The returns in numbers: a hundred times the move over the reference, the item's and its benchmark's signed by the
      direction, the index's not. */
  lemma ReturnsInNumbers(item: Item, r: Resolution)
    requires r.refs.price != 0.0 && r.refs.spy != 0.0 && r.refs.bench != 0.0
    ensures Return(item, r) * r.refs.price ==
            100.0 * if item.direction.Up? then r.exit - r.refs.price else r.refs.price - r.exit
    ensures BenchReturn(item, r) * r.refs.bench ==
            100.0 * if item.direction.Up? then r.benchExit - r.refs.bench else r.refs.bench - r.benchExit
    ensures SpyReturn(r) * r.refs.spy == 100.0 * (r.spyExit - r.refs.spy)
  {
    MoveInNumbers(r.refs.price, r.exit);
    MoveInNumbers(r.refs.bench, r.benchExit);
    MoveInNumbers(r.refs.spy, r.spyExit);
    hide Move;
  }

  lemma MoveInNumbers(from: real, to: real)
    requires from != 0.0
    ensures Move(from, to) * from == 100.0 * (to - from)
    ensures -Move(from, to) * from == 100.0 * (from - to)
  {
    var q := (to - from) / from;
    assert q * from == to - from;
  }

  /** What check_levels accepted: the reference lies strictly between the two levels, the target on the call's side. */
  predicate LevelsAround(item: Item, p: real) {
    if item.direction.Up? then item.target > p > item.invalidation else item.target < p < item.invalidation
  }

  lemma MoveSign(from: real, to: real)
    requires 0.0 < from
    ensures (from < to ==> 0.0 < Move(from, to)) && (to < from ==> Move(from, to) < 0.0) && (to == from ==> Move(from, to) == 0.0)
  {
    var m := (to - from) / from;
    assert m * from == to - from;
  }

  /** A target is a gain and an invalidation a loss, for a call whose levels stood around its stamped price and for every
      pitch; a pitch that opens through a level scores exactly zero against everything. */
  lemma SignsOfOutcomes(item: Item, s: Series, r: Resolution)
    requires Resolved(item, s) == Some(r) && 0.0 < r.refs.price
    requires item.refs.Some? ==> LevelsAround(item, item.refs.value.price)
    ensures r.how.Target? || r.how.GapTarget? ==> Return(item, r) > 0.0
    ensures r.how.Invalidation? || r.how.GapInvalidation? ==> Return(item, r) < 0.0
    ensures r.how.OpenThrough? ==> Return(item, r) == 0.0
    ensures r.how.OpenThrough? && 0.0 < r.refs.spy ==> SpyReturn(r) == 0.0
    ensures r.how.OpenThrough? && 0.0 < r.refs.bench ==> BenchReturn(item, r) == 0.0
  {
    ResolvesAtFirstTouch(item, s, r);
    var days := Sessions(s.spy, item.session);
    var k: nat :| FirstTouch(item, s, days, k, r);
    MoveSign(r.refs.price, r.exit);
    if 0.0 < r.refs.spy { MoveSign(r.refs.spy, r.spyExit); }
    if 0.0 < r.refs.bench { MoveSign(r.refs.bench, r.benchExit); }
    hide Move;
    if !r.how.OpenThrough? && !r.how.Horizon? {
      ReferenceBetweenLevels(item, s, days, k, r);
    }
  }

  lemma ReferenceBetweenLevels(item: Item, s: Series, days: seq<int>, k: nat, r: Resolution)
    requires FirstTouch(item, s, days, k, r) && !r.how.OpenThrough? && !r.how.Horizon?
    requires item.refs.Some? ==> LevelsAround(item, item.refs.value.price)
    ensures LevelsAround(item, r.refs.price)
  {
    if item.refs.None? && k > 0 {
      assert !Touches(item, At(s.own, days[0]).value, 0);
    }
  }
}
