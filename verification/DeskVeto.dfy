/** A veto never changes the paper book: runs that differ only in veto reactions agree on everything but the flag. */
module DeskVeto {
  import opened Basics
  import opened Clock
  import opened Calls
  import opened Sizing
  import opened Ledger
  import opened Desk
  import opened DeskRuns

  function EraseRow(o: Outcome): Outcome { o.(vetoed := false) }

  function EraseRows(os: seq<Outcome>): (r: seq<Outcome>)
    ensures |r| == |os| && forall i :: 0 <= i < |os| ==> r[i] == EraseRow(os[i])
  {
    if os == [] then [] else EraseRows(os[..|os| - 1]) + [EraseRow(os[|os| - 1])]
  }

  function EraseDb(db: Db): Db { db.(outcomes := EraseRows(db.outcomes)) }

  function EraseState(s: State): State { s.(db := EraseDb(s.db)) }

  function EraseReaction(r: Reaction): Reaction { r.(veto := false) }

  function EraseStep(step: Step): Step {
    if step.EntryStep? then step.(entry := step.entry.(reaction := EraseReaction(step.entry.reaction))) else step
  }

  function EraseWrite(w: Write): Write {
    match w
    case Close(row) => Close(EraseRow(row))
    case Enter(buy, row) => Enter(buy, EraseRow(row))
    case _ => w
  }

  function EraseWrites(ws: seq<Write>): (r: seq<Write>)
    ensures |r| == |ws|
  {
    if ws == [] then [] else [EraseWrite(ws[0])] + EraseWrites(ws[1..])
  }

  lemma DoneErased(os: seq<Outcome>)
    ensures Done(EraseRows(os)) == Done(os)
  {
    var es := EraseRows(os);
    forall id | id in Done(os) ensures id in Done(es) {
      var i :| 0 <= i < |os| && os[i].proposal == id;
      assert es[i] in es && es[i].proposal == id;
    }
    forall id | id in Done(es) ensures id in Done(os) {
      var i :| 0 <= i < |es| && es[i].proposal == id;
      assert os[i] in os && os[i].proposal == id;
    }
  }

  /** The book, the lists and the checks do not read the flag. */
  lemma NothingReadsTheFlag(db: Db, exclude: Option<nat>)
    ensures Settled(EraseDb(db)) == Settled(db) && Committed(EraseDb(db)) == Committed(db)
    ensures Pending(EraseDb(db)) == Pending(db) && Unposted(EraseDb(db)) == Unposted(db)
    ensures Book(EraseDb(db), exclude) == Book(db, exclude)
  {
    hide OpenPositions, PositionHoldings, PledgeHoldings, Total, CashFlow, Commitment, Outside, Done, Bought, EraseRows;
    DoneErased(db.outcomes);
  }

  lemma ApplyErased(db: Db, w: Write)
    requires Insertable(db, w)
    ensures Insertable(EraseDb(db), EraseWrite(w)) && Apply(EraseDb(db), EraseWrite(w)) == EraseDb(Apply(db, w))
  {
    if w.Close? || w.Enter? {
      Snoc(db.outcomes, w.row);
    }
  }

  lemma {:induction false} ApplyAllErased(db: Db, ws: seq<Write>)
    requires AllInsertable(db, ws)
    ensures AllInsertable(EraseDb(db), EraseWrites(ws))
    ensures ApplyAll(EraseDb(db), EraseWrites(ws)) == EraseDb(ApplyAll(db, ws))
    decreases |ws|
  {
    if ws != [] {
      ApplyErased(db, ws[0]);
      ApplyAllErased(Apply(db, ws[0]), ws[1..]);
      assert EraseWrites(ws)[1..] == EraseWrites(ws[1..]);
    }
  }

  lemma EraseOne(w: Write)
    ensures EraseWrites([w]) == [EraseWrite(w)]
  {
    assert [w][1..] == [];
  }

  lemma EntryLevelsErased(db: Db, cfg: Config, id: nat, ask: real, u: Option<Quote>)
    requires id < |db.proposals| && db.proposals[id].callId < |db.calls|
    ensures EntryLevels(EraseDb(db), cfg, id, ask, u) == EntryLevels(db, cfg, id, ask, u)
  {
    hide EntryStop, CurrentCall, EffectiveInvalidation;
  }

  lemma DecideErased(db: Db, cfg: Config, id: nat, q: Option<Quote>, u: Option<Quote>, measured: map<string, real>)
    requires id < |db.proposals| && db.proposals[id].callId < |db.calls|
    ensures Decide(EraseDb(db), cfg, id, q, u, measured) == Decide(db, cfg, id, q, u, measured)
  {
    hide Book, CheckBook, CorrelatedWith, Notional, EntryLevels, CurrentCall, EraseRows;
    NothingReadsTheFlag(db, Some(id));
    if q.Some? {
      EntryLevelsErased(db, cfg, id, q.value.ask, u);
    }
  }

  lemma FillWritesErased(
      db: Db, cfg: Config, id: nat, q: Option<Quote>, u: Option<Quote>, r: Reaction, measured: map<string, real>, now: Time)
    requires id < |db.proposals| && db.proposals[id].callId < |db.calls|
    ensures FillWrites(EraseDb(db), cfg, id, q, u, EraseReaction(r), measured, now) ==
            EraseWrites(FillWrites(db, cfg, id, q, u, r, measured, now))
  {
    hide Decide;
    DecideErased(db, cfg, id, q, u, measured);
    var ws := FillWrites(db, cfg, id, q, u, r, measured, now);
    if ws != [] {
      assert ws == [ws[0]];
      EraseOne(ws[0]);
    }
  }

  lemma EntryWritesErased(db: Db, cfg: Config, id: nat, e: EntryInput, now: Time)
    requires id < |db.proposals| && db.proposals[id].callId < |db.calls|
    ensures EntryWrites(EraseDb(db), cfg, id, e.(reaction := EraseReaction(e.reaction)), now) ==
            EraseWrites(EntryWrites(db, cfg, id, e, now))
  {
    hide FillWrites;
    EraseOne(Expire(id, now));
    if id in db.postings {
      var p, r := db.proposals[id], EffectiveReaction(db.postings[id], e.reaction);
      EraseOne(Close(Outcome(id, now, SkippedBlind, r.veto, r.approve)));
      if e.feed.Answered? {
        FillWritesErased(db, cfg, id, Find(e.feed.quotes, p.symbol), Find(e.feed.quotes, p.underlying), r, e.measured, now);
      }
    }
  }

  lemma {:induction false} UnvetoedWritesErased(ws: seq<Write>)
    requires forall i :: 0 <= i < |ws| ==> EraseWrite(ws[i]) == ws[i]
    ensures EraseWrites(ws) == ws
  {
    if ws != [] {
      UnvetoedWritesErased(ws[1..]);
    }
  }

  lemma SubmitErased(cfg: Config, db: Db, cin: CallIn, pin: PmInput, now: Time)
    ensures Submit(EraseDb(db), cfg, cin, pin, now) == Submit(db, cfg, cin, pin, now)
  {
    hide Book, CheckBook, PlanShares, PlanOption, CheckLevels, ConvictionPct, OpenCallFor, CallsMadeOn, FreshQuotes, NewCall,
         CheckHorizon, ParsePrice, EraseRows, CorrelatedWith, PlanOrder;
    NothingReadsTheFlag(db, None);
  }

  lemma PmErased(cfg: Config, db: Db, id: nat, l: Levels, invalidation: real, feed: Feed, now: Time)
    ensures Extend(EraseDb(db), cfg, id, l, feed, now) == Extend(db, cfg, id, l, feed, now)
    ensures TightenTo(EraseDb(db), id, invalidation, feed, now) == TightenTo(db, id, invalidation, feed, now)
  {
    hide OpenPositions, HeldBy, CheckLevels, FreshQuotes, ExtensionOf, EffectiveInvalidation, EraseRows;
  }

  lemma ExitErased(cfg: Config, db: Db, pos: Position, e: ExitInput, now: Time)
    requires pos.callId < |db.calls|
    ensures ExitWrites(EraseDb(db), cfg, pos, e, now) == ExitWrites(db, cfg, pos, e, now)
  {
    hide ExitReason, CurrentCall, EffectiveInvalidation, EraseRows;
  }

  lemma EnabledErased(cfg: Config, s: State, step: Step)
    requires Enabled(cfg, s, step)
    ensures Enabled(cfg, EraseState(s), EraseStep(step))
  {
    hide InSession, OpenPositions, Committed, Unposted, Pending, EraseRows, SaneFeed, SaneQuote;
    NothingReadsTheFlag(s.db, None);
  }

  lemma OtherWritesErased(cfg: Config, s: State, step: Step)
    requires Enabled(cfg, s, step) && Enabled(cfg, EraseState(s), step) && !step.EntryStep? && !step.ExitStep?
    ensures Writes(cfg, EraseState(s), step) == EraseWrites(Writes(cfg, s, step))
  {
    hide Enabled, Submit, Extend, TightenTo, PostingEnd, VetoDeadline, EraseRows;
    if step.ExtendStep? {
      PmErased(cfg, s.db, step.callId, step.levels, 0.0, step.feed, step.now);
    } else if step.TightenStep? {
      PmErased(cfg, s.db, step.callId, Levels(0.0, 0.0, 0), step.invalidation, step.feed, step.now);
    }
    UnvetoedWritesErased(Writes(cfg, s, step));
  }

  lemma WritesErased(cfg: Config, s: State, step: Step)
    requires Enabled(cfg, s, step)
    ensures Enabled(cfg, EraseState(s), EraseStep(step))
    ensures Writes(cfg, EraseState(s), EraseStep(step)) == EraseWrites(Writes(cfg, s, step))
    ensures PledgeAfter(cfg, EraseState(s), EraseStep(step)) == PledgeAfter(cfg, s, step)
  {
    EnabledErased(cfg, s, step);
    hide EntryWrites, ExitWrites, Submit, EraseRows;
    match step
    case EntryStep(id, e, _, now) => EntryWritesErased(s.db, cfg, id, e, now);
    case ExitStep(pos, e, _, now) =>
      ExitErased(cfg, s.db, pos, e, now);
      ExitIsUnvetoed(cfg, s.db, pos, e, now);
    case Check(cin, pin, now) =>
      SubmitErased(cfg, s.db, cin, pin, now);
      OtherWritesErased(cfg, s, step);
    case _ => OtherWritesErased(cfg, s, step);
  }

  lemma ExitIsUnvetoed(cfg: Config, db: Db, pos: Position, e: ExitInput, now: Time)
    requires pos.callId < |db.calls|
    ensures EraseWrites(ExitWrites(db, cfg, pos, e, now)) == ExitWrites(db, cfg, pos, e, now)
  {
    hide ExitHit;
    UnvetoedWritesErased(ExitWrites(db, cfg, pos, e, now));
  }

  lemma StepErased(cfg: Config, s: State, step: Step, s': State)
    requires Next(cfg, s, step, s')
    ensures Next(cfg, EraseState(s), EraseStep(step), EraseState(s'))
  {
    hide Enabled, Writes, PledgeAfter;
    WritesErased(cfg, s, step);
    ApplyAllErased(s.db, Writes(cfg, s, step));
  }

  /** The two runs take the same steps but for who vetoed what. */
  ghost predicate SameButForVetoes(a: seq<Step>, b: seq<Step>) {
    |a| == |b| && forall i :: 0 <= i < |a| ==> EraseStep(a[i]) == EraseStep(b[i])
  }

  lemma NextIsDeterministic(cfg: Config, s: State, step: Step, a: State, b: State)
    requires Next(cfg, s, step, a) && Next(cfg, s, step, b)
    ensures a == b
  {
    hide Enabled, Writes, PledgeAfter;
  }

  /** Non-interference: at every point the two runs agree on every table but the flag, so on fills, cash, positions
      and the book sizing sees. */
  lemma {:induction false} VetoesChangeNothing(
      cfg: Config, a: seq<Step>, as_: seq<State>, b: seq<Step>, bs: seq<State>, i: nat)
    requires Run(cfg, a, as_) && Run(cfg, b, bs) && SameButForVetoes(a, b) && as_[0].clock == bs[0].clock && i < |as_|
    ensures EraseState(as_[i]) == EraseState(bs[i])
    ensures as_[i].db.fills == bs[i].db.fills
    ensures OpenPositions(as_[i].db.proposals, as_[i].db.fills) == OpenPositions(bs[i].db.proposals, bs[i].db.fills)
    ensures forall exclude :: Book(as_[i].db, exclude) == Book(bs[i].db, exclude)
  {
    hide Next, Book, OpenPositions, EraseRows;
    if i > 0 {
      VetoesChangeNothing(cfg, a, as_, b, bs, i - 1);
      StepErased(cfg, as_[i - 1], a[i - 1], as_[i]);
      StepErased(cfg, bs[i - 1], b[i - 1], bs[i]);
      NextIsDeterministic(cfg, EraseState(as_[i - 1]), EraseStep(a[i - 1]), EraseState(as_[i]), EraseState(bs[i]));
    }
    forall exclude ensures Book(as_[i].db, exclude) == Book(bs[i].db, exclude) {
      NothingReadsTheFlag(as_[i].db, exclude);
      NothingReadsTheFlag(bs[i].db, exclude);
    }
  }

  // ----- from the message's two emoji -----

  /** What reading a message's two emoji gave: nothing when a read failed, else whether anyone who counts used it. */
  datatype Reads = Reads(vetoes: Option<bool>, approvals: Option<bool>)

  /** A veto counts when it was read; an approval when both emoji were read; either failed read shows. */
  lemma ReactionsMean(x: Reads)
    ensures var r := ReadReactions(x.vetoes, x.approvals);
            && (r.veto <==> x.vetoes.Some? && x.vetoes.value)
            && (r.approve <==> x.vetoes.Some? && x.approvals.Some? && x.approvals.value)
            && (r.unreadable <==> !(x.vetoes.Some? && x.approvals.Some?))
  {
  }

  /** The step's reaction, if it has one, is what these reads make of it. */
  predicate ReadFrom(step: Step, x: Reads) {
    step.EntryStep? ==> step.entry.reaction == ReadReactions(x.vetoes, x.approvals)
  }

  /** The same reads, but for what a veto read that worked said. */
  predicate SameReads(x: Reads, y: Reads) { x.approvals == y.approvals && (x.vetoes.Some? <==> y.vetoes.Some?) }

  function WithReaction(step: Step, r: Reaction): Step {
    match step
    case EntryStep(id, e, window, now) => EntryStep(id, e.(reaction := r), window, now)
    case _ => step
  }

  lemma SameReadsSameStep(a: Step, b: Step, x: Reads, y: Reads)
    requires ReadFrom(a, x) && ReadFrom(b, y) && SameReads(x, y)
    requires forall r :: WithReaction(a, r) == WithReaction(b, r)
    ensures EraseStep(a) == EraseStep(b)
  {
    var none := Reaction(false, false, false);
    assert WithReaction(a, none) == WithReaction(b, none);
    if a.EntryStep? {
      assert b.EntryStep? && a.entry.(reaction := none) == b.entry.(reaction := none);
    }
  }

  /** Non-interference from the raw reads: two runs that differ only in what the veto emoji said agree on fills,
      positions and the book throughout. A veto read that fails is another matter: it also withholds the approval. */
  lemma VetoReadsChangeNothing(
      cfg: Config, a: seq<Step>, as_: seq<State>, b: seq<Step>, bs: seq<State>, xs: seq<Reads>, ys: seq<Reads>, i: nat)
    requires Run(cfg, a, as_) && Run(cfg, b, bs) && as_[0].clock == bs[0].clock && i < |as_|
    requires |a| == |b| == |xs| == |ys|
    requires forall k :: 0 <= k < |a| ==> ReadFrom(a[k], xs[k]) && ReadFrom(b[k], ys[k]) && SameReads(xs[k], ys[k])
    requires forall k, r :: 0 <= k < |a| ==> WithReaction(a[k], r) == WithReaction(b[k], r)
    ensures as_[i].db.fills == bs[i].db.fills
    ensures OpenPositions(as_[i].db.proposals, as_[i].db.fills) == OpenPositions(bs[i].db.proposals, bs[i].db.fills)
    ensures forall exclude :: Book(as_[i].db, exclude) == Book(bs[i].db, exclude)
    ensures forall approvals :: !ReadReactions(None, approvals).approve
  {
    hide Run, Book, OpenPositions, ReadFrom, SameReads, EraseStep, WithReaction;
    forall k | 0 <= k < |a| ensures EraseStep(a[k]) == EraseStep(b[k]) {
      SameReadsSameStep(a[k], b[k], xs[k], ys[k]);
    }
    VetoesChangeNothing(cfg, a, as_, b, bs, i);
  }
}
