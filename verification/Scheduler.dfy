/** The schedule, its marks and the engine's pass (scheduler.py, main.py `_pass`). */
module Scheduler {
  import opened Basics
  import opened Clock

  datatype Days = Weekdays | Daily | Sat | Sun

  /** Times of day in microseconds; `every == 0` is a single fire at `start`. */
  datatype Spec = Spec(days: Days, start: int, end: int, every: nat)

  /** What `parse` lets through. */
  ghost predicate ValidSpec(s: Spec) { 0 <= s.start <= s.end < DAY }

  datatype Fire = Fire(job: string, at: Time)

  const GRACE := 59 * SECOND

  function DayMatches(s: Spec, d: int, trading: bool): bool {
    match s.days
    case Daily => true
    case Sat => Weekday(d) == 5
    case Sun => Weekday(d) == 6
    case Weekdays => Weekday(d) < 5 && trading
  }

  /** The fire times of one spec on a day: `start`, then every `every` up to `end`. */
  function TimesFrom(s: Spec, d: int, t: Time): (ts: seq<Time>)
    requires 0 < s.every
    ensures forall x :: x in ts ==> t <= x <= At(d, s.end)
    decreases At(d, s.end) - t
  {
    if t > At(d, s.end) then [] else [t] + TimesFrom(s, d, t + s.every)
  }

  function FiresOn(s: Spec, d: int, trading: bool): (ts: seq<Time>) {
    if !DayMatches(s, d, trading) then []
    else if s.every == 0 then [At(d, s.start)]
    else TimesFrom(s, d, At(d, s.start))
  }

  method ComputeFiresOn(s: Spec, d: int, trading: bool) returns (ts: seq<Time>)
    requires ValidSpec(s)
    ensures ts == FiresOn(s, d, trading)
  {
    if !DayMatches(s, d, trading) {
      return [];
    }
    var first := At(d, s.start);
    if s.every == 0 {
      return [first];
    }
    var last, t := At(d, s.end), first;
    ts := [];
    while t <= last
      invariant ts + TimesFrom(s, d, t) == TimesFrom(s, d, first)
      decreases last - t
    {
      ts := ts + [t];
      t := t + s.every;
    }
  }

  /** The `k`-th stride of a spec. */
  function Stride(s: Spec, k: nat): int { k * s.every }

  lemma NextStride(s: Spec, k: nat)
    ensures Stride(s, 0) == 0 && Stride(s, k + 1) == s.every + Stride(s, k)
  {}

  lemma {:induction false} TimesAreStrides(s: Spec, d: int, from: Time, t: Time)
    requires 0 < s.every
    ensures t in TimesFrom(s, d, from) <==> t <= At(d, s.end) && exists k: nat :: t == from + Stride(s, k)
    decreases At(d, s.end) - from
  {
    hide Stride;
    NextStride(s, 0);
    if from <= At(d, s.end) {
      TimesAreStrides(s, d, from + s.every, t);
      if k: nat :| t == from + Stride(s, k) {
        if k > 0 { NextStride(s, k - 1); }
      }
      if k: nat :| t == from + s.every + Stride(s, k) {
        NextStride(s, k);
        assert t == from + Stride(s, k + 1);
      }
      assert t == from ==> t == from + Stride(s, 0);
    } else if k: nat :| t == from + Stride(s, k) {
      StrideForward(s, k);
    }
  }

  lemma StrideForward(s: Spec, k: nat)
    ensures Stride(s, k) >= 0
  {}

  /** A spec fires exactly at its start, or at every whole stride from it that is not past its end, on a day it matches. */
  lemma FiresAreExact(s: Spec, d: int, trading: bool, t: Time)
    ensures t in FiresOn(s, d, trading) <==>
              && DayMatches(s, d, trading)
              && (if s.every == 0 then t == At(d, s.start)
                  else t <= At(d, s.end) && exists k: nat :: t == At(d, s.start) + Stride(s, k))
  {
    if s.every > 0 { TimesAreStrides(s, d, At(d, s.start), t); }
  }

  lemma FiresAreToday(s: Spec, d: int, trading: bool)
    requires ValidSpec(s)
    ensures forall t :: t in FiresOn(s, d, trading) ==> Day(t) == d
  {
    forall t | t in FiresOn(s, d, trading) ensures Day(t) == d {
      assert At(d, 0) <= t < At(d + 1, 0);
    }
  }

  /** Jobs in configuration order. */
  type Schedule = seq<(string, Spec)>

  ghost predicate ValidSchedule(sch: Schedule) { forall k :: 0 <= k < |sch| ==> ValidSpec(sch[k].1) }

  function JobFires(job: string, ts: seq<Time>): (fs: seq<Fire>)
    ensures forall f :: f in fs <==> f.job == job && f.at in ts
  {
    if ts == [] then [] else [Fire(job, ts[0])] + JobFires(job, ts[1..])
  }

  /** Every fire of a day. */
  function DayFires(sch: Schedule, d: int, trading: bool): (fs: seq<Fire>) {
    if sch == [] then [] else JobFires(sch[0].0, FiresOn(sch[0].1, d, trading)) + DayFires(sch[1..], d, trading)
  }

  /** A spec's days, one by one: weekday jobs need a trading weekday, the others read the calendar alone. */
  lemma DaysOfASpec(s: Spec, d: int, trading: bool)
    ensures s.days.Daily? ==> DayMatches(s, d, trading)
    ensures s.days.Sat? ==> (DayMatches(s, d, trading) <==> (d + 3) % 7 == 5)
    ensures s.days.Sun? ==> (DayMatches(s, d, trading) <==> (d + 3) % 7 == 6)
    ensures s.days.Weekdays? ==> (DayMatches(s, d, trading) <==> trading && (d + 3) % 7 <= 4)
  {
  }

  /** Job `k` of the schedule fires at `t` on day `d`: on a day of its spec, at its start or a whole stride from it. */
  ghost predicate Fires(sch: Schedule, k: nat, d: int, trading: bool, t: Time)
    requires k < |sch|
  {
    var s := sch[k].1;
    && DayMatches(s, d, trading)
    && if s.every == 0 then t == At(d, s.start) else t <= At(d, s.end) && exists n: nat :: t == At(d, s.start) + Stride(s, n)
  }

  /** A day's fires are exactly those of its jobs. */
  lemma {:induction false} DayFiresAreTheJobs(sch: Schedule, d: int, trading: bool, f: Fire)
    ensures f in DayFires(sch, d, trading) <==> exists k :: 0 <= k < |sch| && f.job == sch[k].0 && Fires(sch, k, d, trading, f.at)
  {
    if sch != [] {
      hide Stride, DayMatches;
      FiresAreExact(sch[0].1, d, trading, f.at);
      DayFiresAreTheJobs(sch[1..], d, trading, f);
      assert f in JobFires(sch[0].0, FiresOn(sch[0].1, d, trading)) <==> f.job == sch[0].0 && Fires(sch, 0, d, trading, f.at);
      if k :| 0 <= k < |sch| && f.job == sch[k].0 && Fires(sch, k, d, trading, f.at) {
        if k > 0 { assert Fires(sch[1..], k - 1, d, trading, f.at); }
      }
      if k :| 0 <= k < |sch[1..]| && f.job == sch[1..][k].0 && Fires(sch[1..], k, d, trading, f.at) {
        assert Fires(sch, k + 1, d, trading, f.at);
      }
    }
  }

  lemma {:induction false} DayFiresAreToday(sch: Schedule, d: int, trading: bool)
    requires ValidSchedule(sch)
    ensures forall f :: f in DayFires(sch, d, trading) ==> Day(f.at) == d
  {
    if sch != [] {
      FiresAreToday(sch[0].1, d, trading);
      DayFiresAreToday(sch[1..], d, trading);
    }
  }

  predicate IsDue(f: Fire, now: Time) { f.at <= now <= f.at + GRACE }

  predicate IsLate(f: Fire, now: Time) { f.at + GRACE < now }

  /** The fires that are due, or late, and carry no mark. */
  function DueIn(fs: seq<Fire>, now: Time, marked: set<Fire>): set<Fire> {
    set f | f in fs && IsDue(f, now) && f !in marked
  }

  function LateIn(fs: seq<Fire>, now: Time, marked: set<Fire>): set<Fire> {
    set f | f in fs && IsLate(f, now) && f !in marked
  }

  lemma OneMoreFire(fs: seq<Fire>, f: Fire, now: Time, marked: set<Fire>)
    ensures DueIn(fs + [f], now, marked) == DueIn(fs, now, marked) + if IsDue(f, now) && f !in marked then {f} else {}
    ensures LateIn(fs + [f], now, marked) == LateIn(fs, now, marked) + if IsLate(f, now) && f !in marked then {f} else {}
    ensures Elements(fs + [f]) == Elements(fs) + {f}
  {
  }

  lemma EmptyPicks(now: Time, marked: set<Fire>)
    ensures DueIn([], now, marked) == {} == LateIn([], now, marked) && Elements([]) == {} && NoRepeats([])
  {
  }

  lemma NoRepeatsAfter(fs: seq<Fire>, f: Fire)
    requires NoRepeats(fs) && f !in Elements(fs)
    ensures NoRepeats(fs + [f])
  {
    assert forall i :: 0 <= i < |fs| ==> fs[i] in Elements(fs);
  }

  function Kept(fs: set<Fire>, before: int): set<Fire> { set f | f in fs && Day(f.at) >= before }

  function Elements(fs: seq<Fire>): set<Fire> { set f | f in fs }

  ghost predicate NoRepeats(fs: seq<Fire>) { forall i, j :: 0 <= i < j < |fs| ==> fs[i] != fs[j] }

  /** What a row of the job ledger says of a fire. */
  datatype Verdict = Missed | Ended(verdict: string)

  /** The marks, the day the market window stands for, and the job ledger, which outlives a restart: the first row of
      each fire that has one. */
  datatype Marks = Marks(fired: set<Fire>, missed: set<Fire>, windowDay: Option<int>, ledger: map<Fire, Verdict>)

  /** The ledger with a missed row for each late fire that had none. */
  function WithMissed(ledger: map<Fire, Verdict>, late: set<Fire>): map<Fire, Verdict> {
    (map f | f in late :: Missed) + ledger
  }

  /** The ledger with the rows of fires that ended. */
  function WithRun(ledger: map<Fire, Verdict>, rows: map<Fire, Verdict>): map<Fire, Verdict> { rows + ledger }

  lemma OneMoreMissed(ledger: map<Fire, Verdict>, late: set<Fire>, f: Fire)
    ensures WithMissed(ledger, late + {f}) ==
            var now := WithMissed(ledger, late);
            if f in now then now else now[f := Missed]
  {
  }

  lemma MissedKeepsRows(ledger: map<Fire, Verdict>, late: set<Fire>, f: Fire)
    ensures WithMissed(ledger, {}) == ledger
    ensures f in ledger ==> f in WithMissed(ledger, late) && WithMissed(ledger, late)[f] == ledger[f]
  {
  }

  class Board {
    const schedule: Schedule
    var fired: set<Fire>
    var missed: set<Fire>
    var windowDay: Option<int>
    var ledger: map<Fire, Verdict>

    function State(): Marks
      reads this
    {
      Marks(fired, missed, windowDay, ledger)
    }

    constructor (schedule: Schedule, ledger: map<Fire, Verdict>)
      ensures this.schedule == schedule && State() == Marks({}, {}, None, ledger)
    {
      this.schedule := schedule;
      fired, missed, windowDay := {}, {}, None;
      this.ledger := ledger;
    }

    /** The fires to run now, each marked as it is taken. */
    method Due(now: Time, trading: bool) returns (out: seq<Fire>)
      modifies this`fired
      ensures Elements(out) == DueIn(DayFires(schedule, Day(now), trading), now, old(fired) + missed) && NoRepeats(out)
      ensures fired == old(fired) + Elements(out)
    {
      hide DueIn, LateIn, Elements, NoRepeats, DayFires;
      var fs := DayFires(schedule, Day(now), trading);
      out := [];
      EmptyPicks(now, fired + missed);
      for k := 0 to |fs|
        invariant fired == old(fired) + Elements(out)
        invariant Elements(out) == DueIn(fs[..k], now, old(fired) + missed)
        invariant NoRepeats(out)
      {
        var f := fs[k];
        assert fs[..k + 1] == fs[..k] + [f];
        OneMoreFire(fs[..k], f, now, old(fired) + missed);
        if f.at <= now <= f.at + GRACE && f !in fired && f !in missed {
          OneMoreFire(out, f, now, {});
          NoRepeatsAfter(out, f);
          fired := fired + {f};
          out := out + [f];
        }
      }
      assert fs[..|fs|] == fs;
    }

    /** The fires whose minute passed unrun, each marked so that it never runs late. */
    method MarkMissed(now: Time, trading: bool) returns (out: seq<Fire>)
      modifies this`missed
      ensures Elements(out) == LateIn(DayFires(schedule, Day(now), trading), now, fired + old(missed)) && NoRepeats(out)
      ensures missed == old(missed) + Elements(out)
    {
      hide DueIn, LateIn, Elements, NoRepeats, DayFires;
      var fs := DayFires(schedule, Day(now), trading);
      out := [];
      EmptyPicks(now, fired + missed);
      for k := 0 to |fs|
        invariant missed == old(missed) + Elements(out)
        invariant Elements(out) == LateIn(fs[..k], now, fired + old(missed))
        invariant NoRepeats(out)
      {
        var f := fs[k];
        assert fs[..k + 1] == fs[..k] + [f];
        OneMoreFire(fs[..k], f, now, fired + old(missed));
        if f.at + GRACE < now && f !in fired && f !in missed {
          OneMoreFire(out, f, now, {});
          NoRepeatsAfter(out, f);
          missed := missed + {f};
          out := out + [f];
        }
      }
      assert fs[..|fs|] == fs;
    }

    /** Forget the marks of days before `before`. */
    method Prune(before: int) returns (dropped: int)
      modifies this`fired, this`missed
      ensures fired == Kept(old(fired), before) && missed == Kept(old(missed), before)
      ensures dropped == |old(fired)| + |old(missed)| - |fired| - |missed|
    {
      var n := |fired| + |missed|;
      fired := set f | f in fired && Day(f.at) >= before;
      missed := set f | f in missed && Day(f.at) >= before;
      dropped := n - |fired| - |missed|;
    }

    /** One pass: a new day refreshes the window and prunes; then late fires are marked and, unless the ledger already
        has their row, recorded as missed; then the due fires are taken. */
    method Pass(now: Time, trading: bool) returns (due: seq<Fire>, late: seq<Fire>)
      modifies this
      ensures State() == AfterPass(schedule, old(State()), now, trading)
      ensures Elements(due) == PassDue(schedule, old(State()), now, trading) && NoRepeats(due)
      ensures Elements(late) == PassLate(schedule, old(State()), now, trading) && NoRepeats(late)
    {
      hide DueIn, LateIn, Elements, NoRepeats, DayFires;
      var today := Day(now);
      if windowDay != Some(today) {
        windowDay := Some(today);
        var _ := Prune(today);
      }
      assert State() == Pruned(old(State()), now);
      late := MarkMissed(now, trading);
      RecordMissed(late);
      due := Due(now, trading);
    }

    /** The row a dispatched fire leaves when it ends. */
    method RecordRun(f: Fire, verdict: string)
      modifies this`ledger
      ensures ledger == WithRun(old(ledger), map[f := Ended(verdict)])
    {
      if f !in ledger {
        ledger := ledger[f := Ended(verdict)];
      }
    }

    /** A missed row for each late fire without a row; a row that is there keeps its verdict. */
    method RecordMissed(late: seq<Fire>)
      modifies this`ledger
      ensures ledger == WithMissed(old(ledger), Elements(late))
      ensures forall f :: f in old(ledger) ==> f in ledger && ledger[f] == old(ledger)[f]
    {
      hide WithMissed, Elements;
      EmptyPicks(0, {});
      forall f { MissedKeepsRows(ledger, Elements(late), f); }
      for k := 0 to |late|
        invariant ledger == WithMissed(old(ledger), Elements(late[..k]))
      {
        assert late[..k + 1] == late[..k] + [late[k]];
        OneMoreFire(late[..k], late[k], 0, {});
        OneMoreMissed(old(ledger), Elements(late[..k]), late[k]);
        if late[k] !in ledger {
          ledger := ledger[late[k] := Missed];
        }
      }
      assert late[..|late|] == late;
    }
  }

  // ----- passes -----

  /** The marks a pass works with, after a possible prune. */
  function Pruned(s: Marks, now: Time): Marks {
    if s.windowDay == Some(Day(now)) then s
    else s.(fired := Kept(s.fired, Day(now)), missed := Kept(s.missed, Day(now)), windowDay := Some(Day(now)))
  }

  function PassLate(sch: Schedule, s: Marks, now: Time, trading: bool): set<Fire> {
    LateIn(DayFires(sch, Day(now), trading), now, Pruned(s, now).fired + Pruned(s, now).missed)
  }

  function PassDue(sch: Schedule, s: Marks, now: Time, trading: bool): set<Fire> {
    DueIn(DayFires(sch, Day(now), trading), now,
          Pruned(s, now).fired + (Pruned(s, now).missed + PassLate(sch, s, now, trading)))
  }

  function AfterPass(sch: Schedule, s: Marks, now: Time, trading: bool): Marks {
    var p := Pruned(s, now);
    p.(fired := p.fired + PassDue(sch, s, now, trading), missed := p.missed + PassLate(sch, s, now, trading),
       ledger := WithMissed(p.ledger, PassLate(sch, s, now, trading)))
  }

  /** A pass, and the rows that dispatched fires left since the pass before it. */
  datatype Tick = Tick(now: Time, trading: bool, ended: map<Fire, Verdict>)

  function Reported(s: Marks, ended: map<Fire, Verdict>): Marks { s.(ledger := WithRun(s.ledger, ended)) }

  /** A run of passes under a clock that never goes back; the calendar may change from pass to pass. */
  ghost predicate Passes(sch: Schedule, ticks: seq<Tick>, marks: seq<Marks>) {
    && ValidSchedule(sch) && |marks| == |ticks| + 1
    && marks[0].fired == {} && marks[0].missed == {} && marks[0].windowDay.None?
    && (forall i :: 0 <= i < |ticks| ==>
          marks[i + 1] == AfterPass(sch, Reported(marks[i], ticks[i].ended), ticks[i].now, ticks[i].trading))
    && (forall i, j :: 0 <= i < j < |ticks| ==> ticks[i].now <= ticks[j].now)
  }

  /** What pass `i` returned to run, and what it marked missed. */
  function Ran(sch: Schedule, ticks: seq<Tick>, marks: seq<Marks>, i: nat): set<Fire>
    requires i < |ticks| && |marks| == |ticks| + 1
  {
    PassDue(sch, marks[i], ticks[i].now, ticks[i].trading)
  }

  function Late(sch: Schedule, ticks: seq<Tick>, marks: seq<Marks>, i: nat): set<Fire>
    requires i < |ticks| && |marks| == |ticks| + 1
  {
    PassLate(sch, marks[i], ticks[i].now, ticks[i].trading)
  }

  /** A mark made by pass `i` is still there after pass `j`, or its day is over. */
  lemma {:induction false} MarksStayForTheirDay(sch: Schedule, ticks: seq<Tick>, marks: seq<Marks>, i: nat, j: nat, f: Fire)
    requires Passes(sch, ticks, marks) && i <= j < |ticks|
    ensures f in Ran(sch, ticks, marks, i) ==> f in marks[j + 1].fired || Day(f.at) < Day(ticks[j].now)
    ensures f in Late(sch, ticks, marks, i) ==> f in marks[j + 1].missed || Day(f.at) < Day(ticks[j].now)
    decreases j
  {
    if i < j {
      MarksStayForTheirDay(sch, ticks, marks, i, j - 1, f);
      DayMonotone(ticks[j - 1].now, ticks[j].now);
    }
  }

  /** A row of the job ledger is never overwritten: it keeps its verdict through every later pass. */
  lemma {:induction false} RowsKeepTheirVerdict(sch: Schedule, ticks: seq<Tick>, marks: seq<Marks>, i: nat, j: nat, f: Fire)
    requires Passes(sch, ticks, marks) && i <= j < |marks| && f in marks[i].ledger
    ensures f in marks[j].ledger && marks[j].ledger[f] == marks[i].ledger[f]
    decreases j
  {
    if i < j {
      RowsKeepTheirVerdict(sch, ticks, marks, i, j - 1, f);
    }
  }

  /** Across a restart, which forgets the marks and keeps the ledger: every row of the first process has its verdict after
      any number of passes of the second, and a missed row of the second is that of a late fire that had no row. */
  lemma RestartKeepsTheLedger(
      sch: Schedule, ticks: seq<Tick>, marks: seq<Marks>, ticks': seq<Tick>, marks': seq<Marks>, i: nat, j: nat, f: Fire)
    requires Passes(sch, ticks, marks) && Passes(sch, ticks', marks')
    requires marks'[0].ledger == marks[|ticks|].ledger && i < |marks| && j < |marks'|
    ensures f in marks[i].ledger ==> f in marks'[j].ledger && marks'[j].ledger[f] == marks[i].ledger[f]
    ensures f in marks'[j].ledger && f !in marks[|ticks|].ledger ==>
              exists k :: 0 <= k < j && RowFrom(sch, ticks', marks', k, f, marks'[j].ledger[f])
  {
    if f in marks[i].ledger {
      RowsKeepTheirVerdict(sch, ticks, marks, i, |ticks|, f);
      RowsKeepTheirVerdict(sch, ticks', marks', 0, j, f);
    }
    if f in marks'[j].ledger && f !in marks'[0].ledger {
      NewRowsHaveTheirPass(sch, ticks', marks', j, f);
    }
  }

  /** Pass `k` brought this row: of a fire that had ended, or a missed row of one that was late. */
  ghost predicate RowFrom(sch: Schedule, ticks: seq<Tick>, marks: seq<Marks>, k: nat, f: Fire, v: Verdict)
    requires k < |ticks| && |marks| == |ticks| + 1
  {
    (f in ticks[k].ended && ticks[k].ended[f] == v) || (f !in ticks[k].ended && f in Late(sch, ticks, marks, k) && v == Missed)
  }

  lemma {:induction false} NewRowsHaveTheirPass(sch: Schedule, ticks: seq<Tick>, marks: seq<Marks>, j: nat, f: Fire)
    requires Passes(sch, ticks, marks) && j < |marks| && f in marks[j].ledger && f !in marks[0].ledger
    ensures exists k :: 0 <= k < j && RowFrom(sch, ticks, marks, k, f, marks[j].ledger[f])
  {
    if f in marks[j - 1].ledger {
      RowsKeepTheirVerdict(sch, ticks, marks, j - 1, j, f);
      NewRowsHaveTheirPass(sch, ticks, marks, j - 1, f);
    } else {
      assert RowFrom(sch, ticks, marks, j - 1, f, marks[j].ledger[f]);
    }
  }

  /** At most once: no fire is ever returned twice, marked missed twice, or both returned and marked missed, over any
      run of passes with pruning and any change of calendar. */
  lemma NoFireTwice(sch: Schedule, ticks: seq<Tick>, marks: seq<Marks>, i: nat, j: nat)
    requires Passes(sch, ticks, marks) && i < j < |ticks|
    ensures Ran(sch, ticks, marks, i) !! Ran(sch, ticks, marks, j)
    ensures Late(sch, ticks, marks, i) !! Late(sch, ticks, marks, j)
    ensures Ran(sch, ticks, marks, i) !! Late(sch, ticks, marks, j)
    ensures Late(sch, ticks, marks, i) !! Ran(sch, ticks, marks, j)
    ensures Ran(sch, ticks, marks, i) !! Late(sch, ticks, marks, i)
  {
    DayFiresAreToday(sch, Day(ticks[j].now), ticks[j].trading);
    forall f | f in Ran(sch, ticks, marks, i) + Late(sch, ticks, marks, i)
      ensures f !in Ran(sch, ticks, marks, j) && f !in Late(sch, ticks, marks, j)
    {
      MarksStayForTheirDay(sch, ticks, marks, i, j - 1, f);
      DayMonotone(ticks[j - 1].now, ticks[j].now);
    }
  }

  /** Fired and missed never share a fire. */
  lemma {:induction false} FiredAndMissedAreDisjoint(sch: Schedule, ticks: seq<Tick>, marks: seq<Marks>, i: nat)
    requires Passes(sch, ticks, marks) && i < |marks|
    ensures marks[i].fired !! marks[i].missed
  {
    if i > 0 {
      FiredAndMissedAreDisjoint(sch, ticks, marks, i - 1);
    }
  }

  lemma FireIsAccountedFor(sch: Schedule, ticks: seq<Tick>, marks: seq<Marks>, i: nat, f: Fire)
    requires Passes(sch, ticks, marks) && i < |ticks|
    requires f in DayFires(sch, Day(ticks[i].now), ticks[i].trading) && f.at <= ticks[i].now
    ensures (f in marks[i + 1].fired) != (f in marks[i + 1].missed)
  {
    FiredAndMissedAreDisjoint(sch, ticks, marks, i + 1);
  }

  /** At least once: after a pass, every fire of every job of the schedule that day, at or before now, is in exactly one of
      the two sets. */
  lemma EveryFireIsAccountedFor(sch: Schedule, ticks: seq<Tick>, marks: seq<Marks>, i: nat, k: nat, t: Time)
    requires Passes(sch, ticks, marks) && i < |ticks| && k < |sch|
    requires Fires(sch, k, Day(ticks[i].now), ticks[i].trading, t) && t <= ticks[i].now
    ensures var f := Fire(sch[k].0, t); (f in marks[i + 1].fired) != (f in marks[i + 1].missed)
  {
    hide Passes, Fires;
    DayFiresAreTheJobs(sch, Day(ticks[i].now), ticks[i].trading, Fire(sch[k].0, t));
    FireIsAccountedFor(sch, ticks, marks, i, Fire(sch[k].0, t));
  }

  /** Nothing else is: what a pass returns is a fire of a job of the schedule that day whose minute has not passed, and what
      it marks missed one whose minute has. */
  lemma OnlyJobsOfTheDay(sch: Schedule, ticks: seq<Tick>, marks: seq<Marks>, i: nat, f: Fire)
    requires Passes(sch, ticks, marks) && i < |ticks|
    ensures var now := ticks[i].now;
            var named := exists k :: 0 <= k < |sch| && f.job == sch[k].0 && Fires(sch, k, Day(now), ticks[i].trading, f.at);
            && (f in Ran(sch, ticks, marks, i) ==> named && f.at <= now <= f.at + 59 * SECOND)
            && (f in Late(sch, ticks, marks, i) ==> named && now > f.at + 59 * SECOND)
  {
    hide Fires, DayFires;
    DayFiresAreTheJobs(sch, Day(ticks[i].now), ticks[i].trading, f);
  }

  /** On a calendar that does not change during the day, passes at most a grace apart miss nothing new. */
  lemma ClosePassesMissNothing(sch: Schedule, ticks: seq<Tick>, marks: seq<Marks>, i: nat)
    requires Passes(sch, ticks, marks) && i + 1 < |ticks|
    requires Day(ticks[i].now) == Day(ticks[i + 1].now) && ticks[i].trading == ticks[i + 1].trading
    requires ticks[i + 1].now - ticks[i].now <= GRACE
    ensures Late(sch, ticks, marks, i + 1) == {}
  {
    assert marks[i + 1].windowDay == Some(Day(ticks[i].now));
    var next := ticks[i + 1];
    var fs := DayFires(sch, Day(next.now), next.trading);
    forall f | f in fs ensures IsLate(f, next.now) ==> f in marks[i + 1].fired + marks[i + 1].missed {
      if IsLate(f, next.now) {
        FireIsAccountedFor(sch, ticks, marks, i, f);
      }
    }
  }
}
