/** Importing the escalation file, whole or resumed (research/importer.py). A line's validation reads that line alone,
    so its verdict is a field of the line. */
module Importer {

  datatype Line =
    | RaiseLine(id: string, claim: string, wellFormed: bool)
    | ScoreLine(id: string, outcome: string, scored: string, wellFormed: bool)
    | OtherLine

  datatype Row = RaiseRow(id: string, claim: string) | ScoreRow(id: string, outcome: string, scored: string)

  type Ledger = seq<Row>

  predicate HasRaise(ledger: Ledger, id: string) {
    exists i :: 0 <= i < |ledger| && ledger[i].RaiseRow? && ledger[i].id == id
  }

  /** The outcomes filed under an id, in row order. */
  function ScoresOf(ledger: Ledger, id: string): seq<string> {
    if ledger == [] then []
    else
      var last := ledger[|ledger| - 1];
      ScoresOf(ledger[..|ledger| - 1], id) + if last.ScoreRow? && last.id == id then [last.outcome] else []
  }

  /** The ledger so far, and how many scores of each id the file has accounted for. */
  datatype Progress = Progress(ledger: Ledger, filed: map<string, nat>)

  function Filed(p: Progress, id: string): nat { if id in p.filed then p.filed[id] else 0 }

  /** One line, against the scores that were in the ledger when the import began. */
  function ImportLine(prior: Ledger, p: Progress, l: Line): Progress {
    match l
    case OtherLine => p
    case RaiseLine(id, claim, ok) =>
      if !ok || HasRaise(p.ledger, id) then p else p.(ledger := p.ledger + [RaiseRow(id, claim)])
    case ScoreLine(id, outcome, scored, ok) =>
      if !ok then p
      else
        var seen, already := Filed(p, id), ScoresOf(prior, id);
        if seen < |already| && already[seen] == outcome then p.(filed := p.filed[id := seen + 1])
        else if !HasRaise(p.ledger, id) then p
        else Progress(p.ledger + [ScoreRow(id, outcome, scored)], p.filed[id := seen + 1])
  }

  function ImportLines(prior: Ledger, lines: seq<Line>): Progress {
    if lines == [] then Progress(prior, map[])
    else ImportLine(prior, ImportLines(prior, lines[..|lines| - 1]), lines[|lines| - 1])
  }

  /** The ledger after importing a file into it. */
  function Imported(ledger: Ledger, file: seq<Line>): Ledger { ImportLines(ledger, file).ledger }

  /** The import loop: one pass over the lines, counting the rows it writes. */
  method Import(ledger: Ledger, file: seq<Line>) returns (after: Ledger, written: nat)
    ensures after == Imported(ledger, file)
    ensures written == |after| - |ledger|
  {
    var filed: map<string, nat> := map[];
    after, written := ledger, 0;
    for n := 0 to |file|
      invariant Progress(after, filed) == ImportLines(ledger, file[..n])
      invariant written == |after| - |ledger|
    {
      assert file[..n + 1][..n] == file[..n];
      match file[n]
      case OtherLine =>
      case RaiseLine(id, claim, ok) =>
        if ok && !HasRaise(after, id) {
          after, written := after + [RaiseRow(id, claim)], written + 1;
        }
      case ScoreLine(id, outcome, scored, ok) =>
        if ok {
          var seen := if id in filed then filed[id] else 0;
          var already := ScoresOf(ledger, id);
          if seen < |already| && already[seen] == outcome {
            filed := filed[id := seen + 1];
          } else if HasRaise(after, id) {
            after, written := after + [ScoreRow(id, outcome, scored)], written + 1;
            filed := filed[id := seen + 1];
          }
        }
    }
    assert file[..|file|] == file;
  }

  // ----- what a fresh import leaves -----

  /** A fresh import: first raises, and every score after its raise. */
  function Fresh(file: seq<Line>): Ledger {
    if file == [] then []
    else
      var init, l := Fresh(file[..|file| - 1]), file[|file| - 1];
      match l
      case OtherLine => init
      case RaiseLine(id, claim, ok) => if !ok || HasRaise(init, id) then init else init + [RaiseRow(id, claim)]
      case ScoreLine(id, outcome, scored, ok) =>
        if !ok || !HasRaise(init, id) then init else init + [ScoreRow(id, outcome, scored)]
  }

  lemma {:induction false} FreshImport(file: seq<Line>)
    ensures Imported([], file) == Fresh(file)
  {
    if file != [] {
      FreshImport(file[..|file| - 1]);
      assert forall id :: ScoresOf([], id) == [];
    }
  }

  lemma ScoresAfter(ledger: Ledger, r: Row, id: string)
    ensures ScoresOf(ledger + [r], id) == ScoresOf(ledger, id) + if r.ScoreRow? && r.id == id then [r.outcome] else []
    ensures HasRaise(ledger + [r], id) <==> HasRaise(ledger, id) || (r.RaiseRow? && r.id == id)
  {
    assert (ledger + [r])[..|ledger|] == ledger;
    if HasRaise(ledger, id) {
      var i :| 0 <= i < |ledger| && ledger[i].RaiseRow? && ledger[i].id == id;
      assert (ledger + [r])[i] == ledger[i];
    }
    if r.RaiseRow? && r.id == id {
      assert (ledger + [r])[|ledger|] == r;
    }
    if HasRaise(ledger + [r], id) {
      var i :| 0 <= i < |ledger + [r]| && (ledger + [r])[i].RaiseRow? && (ledger + [r])[i].id == id;
      if i < |ledger| {
        assert ledger[i].RaiseRow? && ledger[i].id == id;
      }
    }
  }

  /** One more line of a fresh import adds at most one score and never removes a raise. */
  lemma FreshAfter(file: seq<Line>, l: Line, id: string)
    ensures var before, after := Fresh(file), Fresh(file + [l]);
            && ScoresOf(after, id) == ScoresOf(before, id) +
                 (if l.ScoreLine? && l.wellFormed && l.id == id && HasRaise(before, id) then [l.outcome] else [])
            && (HasRaise(after, id) <==> HasRaise(before, id) || (l.RaiseLine? && l.wellFormed && l.id == id))
  {
    var before := Fresh(file);
    assert (file + [l])[..|file|] == file;
    assert ScoresOf(before, id) + [] == ScoresOf(before, id);
    match l
    case OtherLine =>
    case RaiseLine(rid, claim, ok) => ScoresAfter(before, RaiseRow(rid, claim), id);
    case ScoreLine(sid, outcome, scored, ok) => ScoresAfter(before, ScoreRow(sid, outcome, scored), id);
  }

  /** Longer files keep the raises and extend each id's scores. */
  lemma {:induction false} FreshGrows(file: seq<Line>, n: nat, id: string)
    requires n <= |file|
    ensures HasRaise(Fresh(file[..n]), id) ==> HasRaise(Fresh(file), id)
    ensures ScoresOf(Fresh(file[..n]), id) <= ScoresOf(Fresh(file), id)
  {
    if n == |file| {
      assert file[..n] == file;
    } else {
      var init, last := file[..|file| - 1], file[|file| - 1];
      assert file == init + [last] && init[..n] == file[..n];
      FreshGrows(init, n, id);
      FreshAfter(init, last, id);
    }
  }

  // ----- early scores -----

  /** The file holds a well-formed raise of this id. */
  ghost predicate Raises(file: seq<Line>, id: string) {
    exists i :: 0 <= i < |file| && file[i].RaiseLine? && file[i].wellFormed && file[i].id == id
  }

  /** Line `j` is a well-formed score of an id the file raises, but not before it. */
  ghost predicate Early(file: seq<Line>, j: nat) {
    && j < |file| && file[j].ScoreLine? && file[j].wellFormed
    && Raises(file, file[j].id) && !Raises(file[..j], file[j].id)
  }

  lemma {:induction false} FreshRaises(file: seq<Line>, id: string)
    ensures HasRaise(Fresh(file), id) <==> Raises(file, id)
  {
    if file != [] {
      var init, last := file[..|file| - 1], file[|file| - 1];
      assert file == init + [last];
      FreshRaises(init, id);
      FreshAfter(init, last, id);
      if Raises(init, id) {
        var i :| 0 <= i < |init| && init[i].RaiseLine? && init[i].wellFormed && init[i].id == id;
        assert file[i] == init[i];
      }
    }
  }

  ghost predicate InOrder(file: seq<Line>) { forall j: nat :: j < |file| ==> !Early(file, j) }

  lemma {:induction false} NoScoreWithoutRaise(file: seq<Line>, id: string)
    ensures !HasRaise(Fresh(file), id) ==> ScoresOf(Fresh(file), id) == []
  {
    if file != [] {
      var init, last := file[..|file| - 1], file[|file| - 1];
      assert file == init + [last];
      NoScoreWithoutRaise(init, id);
      FreshAfter(init, last, id);
    }
  }

  // ----- resuming an ordered import -----

  /** Where a resumed import stands after `n` lines: it rewrites nothing of the first `k` lines, and every id has
      accounted for exactly the scores a fresh import would hold. */
  ghost predicate InStep(file: seq<Line>, k: nat, n: nat, p: Progress)
    requires k <= |file| && n <= |file|
  {
    && p.ledger == Fresh(file[..if n <= k then k else n])
    && forall id :: Filed(p, id) == |ScoresOf(Fresh(file[..n]), id)|
  }

  /** A line that was already imported is recognised. */
  lemma OldLineKeepsStep(file: seq<Line>, k: nat, n: nat, p: Progress)
    requires n < k <= |file| && InOrder(file[..k]) && InStep(file, k, n, p)
    ensures InStep(file, k, n + 1, ImportLine(Fresh(file[..k]), p, file[n]))
  {
    hide Fresh, ScoresOf;
    var done, l := file[..k], file[n];
    var q := ImportLine(Fresh(done), p, l);
    assert done[..n] == file[..n] && done[..n + 1] == file[..n] + [l] == file[..n + 1];
    forall id
      ensures Filed(q, id) == |ScoresOf(Fresh(file[..n + 1]), id)|
      ensures q.ledger == p.ledger
    {
      assert Filed(p, id) == |ScoresOf(Fresh(file[..n]), id)|;
      FreshAfter(file[..n], l, id);
      if !l.OtherLine? && l.wellFormed {
        assert Filed(p, l.id) == |ScoresOf(Fresh(file[..n]), l.id)|;
        FreshAfter(file[..n], l, l.id);
        FreshGrows(done, n, l.id);
        FreshGrows(done, n + 1, l.id);
        NoScoreWithoutRaise(done, l.id);
        FreshRaises(done, l.id);
        FreshRaises(done[..n], l.id);
        assert !Early(done, n);
      }
    }
    assert Filed(q, "") == |ScoresOf(Fresh(file[..n + 1]), "")|;
  }

  /** A line past the old ones is imported as a fresh import would. */
  lemma NewLineKeepsStep(file: seq<Line>, k: nat, n: nat, p: Progress)
    requires k <= n < |file| && InStep(file, k, n, p)
    ensures InStep(file, k, n + 1, ImportLine(Fresh(file[..k]), p, file[n]))
  {
    hide ScoresOf;
    var done, l := file[..k], file[n];
    var q := ImportLine(Fresh(done), p, l);
    assert file[..n + 1][..n] == file[..n] && file[..n][..k] == done && file[..n + 1] == file[..n] + [l];
    forall id
      ensures Filed(q, id) == |ScoresOf(Fresh(file[..n + 1]), id)|
      ensures q.ledger == Fresh(file[..n + 1])
    {
      assert Filed(p, id) == |ScoresOf(Fresh(file[..n]), id)|;
      FreshAfter(file[..n], l, id);
      if !l.OtherLine? && l.wellFormed {
        assert Filed(p, l.id) == |ScoresOf(Fresh(file[..n]), l.id)|;
        FreshAfter(file[..n], l, l.id);
        FreshGrows(file[..n], k, l.id);
      }
    }
    assert Filed(q, "") == |ScoresOf(Fresh(file[..n + 1]), "")|;
  }

  lemma EmptyImport(prior: Ledger)
    ensures ImportLines(prior, []) == Progress(prior, map[])
    ensures forall id :: ScoresOf(Fresh([]), id) == []
  {}

  lemma {:induction false} ResumeStaysInStep(file: seq<Line>, k: nat, n: nat)
    requires k <= |file| && n <= |file| && InOrder(file[..k])
    ensures InStep(file, k, n, ImportLines(Fresh(file[..k]), file[..n]))
  {
    hide ScoresOf, Fresh, ImportLine;
    var prior := Fresh(file[..k]);
    if n == 0 {
      EmptyImport(prior);
      assert file[..0] == [];
    } else {
      ResumeStaysInStep(file, k, n - 1);
      var p := ImportLines(prior, file[..n - 1]);
      assert file[..n][..n - 1] == file[..n - 1];
      if n - 1 < k { OldLineKeepsStep(file, k, n - 1, p); } else { NewLineKeepsStep(file, k, n - 1, p); }
    }
  }

  // ----- resuming past an early score -----

  /** The well-formed scores of an id in a file. */
  function ScoreLines(file: seq<Line>, id: string): nat {
    if file == [] then 0
    else
      var l := file[|file| - 1];
      ScoreLines(file[..|file| - 1], id) + if l.ScoreLine? && l.wellFormed && l.id == id then 1 else 0
  }

  /** Into a ledger that already holds the raise, every score of the id is accounted for: its rows are at least
      the file's score lines. */
  lemma {:induction false} RaisedFirstFilesAll(prior: Ledger, file: seq<Line>, id: string)
    requires HasRaise(prior, id)
    ensures var p := ImportLines(prior, file);
            && HasRaise(p.ledger, id)
            && Filed(p, id) == ScoreLines(file, id)
            && |ScoresOf(p.ledger, id)| >= ScoreLines(file, id)
            && |ScoresOf(p.ledger, id)| >= |ScoresOf(prior, id)|
  {
    if file != [] {
      var init, l := file[..|file| - 1], file[|file| - 1];
      RaisedFirstFilesAll(prior, init, id);
      var p := ImportLines(prior, init);
      match l
      case OtherLine =>
      case RaiseLine(rid, claim, ok) => ScoresAfter(p.ledger, RaiseRow(rid, claim), id);
      case ScoreLine(sid, outcome, scored, ok) => ScoresAfter(p.ledger, ScoreRow(sid, outcome, scored), id);
    }
  }

  /** A fresh import holds no more scores than the file, and misses every score that precedes its raise. */
  lemma {:induction false} FreshFilesAtMost(file: seq<Line>, n: nat, id: string)
    requires n <= |file|
    ensures |ScoresOf(Fresh(file[..n]), id)| <= ScoreLines(file[..n], id)
  {
    if n > 0 {
      FreshFilesAtMost(file, n - 1, id);
      assert file[..n] == file[..n - 1] + [file[n - 1]] && file[..n][..n - 1] == file[..n - 1];
      FreshAfter(file[..n - 1], file[n - 1], id);
    }
  }

  lemma {:induction false} FreshMissesEarly(file: seq<Line>, n: nat, j: nat)
    requires j < n <= |file| && file[j].ScoreLine? && file[j].wellFormed && !HasRaise(Fresh(file[..j]), file[j].id)
    ensures |ScoresOf(Fresh(file[..n]), file[j].id)| < ScoreLines(file[..n], file[j].id)
  {
    hide Fresh, ScoresOf, HasRaise;
    assert file[..n] == file[..n - 1] + [file[n - 1]] && file[..n][..n - 1] == file[..n - 1];
    FreshAfter(file[..n - 1], file[n - 1], file[j].id);
    if n - 1 > j { FreshMissesEarly(file, n - 1, j); } else { FreshFilesAtMost(file, j, file[j].id); }
  }

  // ----- what a re-import of a corrected file adds -----

  /** The outcomes a file names for an id, in order. */
  function FileScores(file: seq<Line>, id: string): (s: seq<string>)
    ensures |s| == ScoreLines(file, id)
  {
    if file == [] then []
    else
      var l := file[|file| - 1];
      FileScores(file[..|file| - 1], id) + if l.ScoreLine? && l.wellFormed && l.id == id then [l.outcome] else []
  }

  /** Those that are not already the score in their place. */
  function NotInPlace(already: seq<string>, scores: seq<string>): seq<string> {
    if scores == [] then []
    else
      var n := |scores| - 1;
      NotInPlace(already, scores[..n]) + if n < |already| && already[n] == scores[n] then [] else [scores[n]]
  }

  lemma {:induction false} NotInPlaceAfter(already: seq<string>, scores: seq<string>, x: string)
    ensures NotInPlace(already, scores + [x]) ==
            NotInPlace(already, scores) + if |scores| < |already| && already[|scores|] == x then [] else [x]
  {
    var all := scores + [x];
    assert |all| - 1 == |scores| && all[..|scores|] == scores && all[|scores|] == x;
  }

  lemma {:induction false} FileScoresAfter(file: seq<Line>, l: Line, id: string)
    ensures FileScores(file + [l], id) ==
            FileScores(file, id) + if l.ScoreLine? && l.wellFormed && l.id == id then [l.outcome] else []
  {
    assert (file + [l])[..|file|] == file;
  }

  /** One line's scores of an id that is raised. */
  lemma LineScores(prior: Ledger, p: Progress, l: Line, id: string)
    requires HasRaise(p.ledger, id)
    ensures var already, mine := ScoresOf(prior, id), l.ScoreLine? && l.wellFormed && l.id == id;
            ScoresOf(ImportLine(prior, p, l).ledger, id) == ScoresOf(p.ledger, id) +
              if !mine || (Filed(p, id) < |already| && already[Filed(p, id)] == l.outcome) then [] else [l.outcome]
  {
    assert ScoresOf(p.ledger, id) + [] == ScoresOf(p.ledger, id);
    match l
    case OtherLine =>
    case RaiseLine(rid, claim, ok) => ScoresAfter(p.ledger, RaiseRow(rid, claim), id);
    case ScoreLine(sid, outcome, scored, ok) => ScoresAfter(p.ledger, ScoreRow(sid, outcome, scored), id);
  }

  /** Into a ledger that holds the raise, an import adds for that id exactly the scores of the file that are not already
      there in their place, in file order: the n-th score is skipped only if it is already the n-th row. */
  lemma {:induction false} ScoresAreMatchedByPlace(prior: Ledger, file: seq<Line>, id: string)
    requires HasRaise(prior, id)
    ensures ScoresOf(Imported(prior, file), id) == ScoresOf(prior, id) + NotInPlace(ScoresOf(prior, id), FileScores(file, id))
  {
    var already := ScoresOf(prior, id);
    if file != [] {
      var init, l := file[..|file| - 1], file[|file| - 1];
      assert file == init + [l];
      ScoresAreMatchedByPlace(prior, init, id);
      RaisedFirstFilesAll(prior, init, id);
      var p, scores := ImportLines(prior, init), FileScores(init, id);
      hide ScoresOf, HasRaise, NotInPlace, FileScores, ImportLine, ScoreLines;
      LineScores(prior, p, l, id);
      FileScoresAfter(init, l, id);
      assert scores + [] == scores;
      if l.ScoreLine? && l.wellFormed && l.id == id {
        NotInPlaceAfter(already, scores, l.outcome);
      }
    }
  }

  // ----- the theorem -----

  /** Importing a prefix and then the whole file is the same as importing the whole file once, exactly when no score
      in the prefix stands before the raise the prefix holds for it. */
  lemma ResumeIsWholeExactlyWhenInOrder(file: seq<Line>, k: nat)
    requires k <= |file|
    ensures Imported(Imported([], file[..k]), file) == Imported([], file) <==> InOrder(file[..k])
  {
    FreshImport(file);
    FreshImport(file[..k]);
    assert file[..|file|] == file;
    var done := file[..k];
    if InOrder(done) {
      ResumeStaysInStep(file, k, |file|);
      assert k == |file| ==> done == file;
    } else {
      var j: nat :| j < |done| && Early(done, j);
      assert done[..j] == file[..j];
      FreshRaises(done, file[j].id);
      FreshRaises(done[..j], file[j].id);
      RaisedFirstFilesAll(Fresh(done), file, file[j].id);
      FreshMissesEarly(file, |file|, j);
    }
  }

  /** A second identical run writes nothing exactly when the file is in order. */
  lemma SecondRunWritesNothing(file: seq<Line>)
    ensures Imported(Imported([], file), file) == Imported([], file) <==> InOrder(file)
  {
    assert file[..|file|] == file;
    ResumeIsWholeExactlyWhenInOrder(file, |file|);
  }

  /** Once raised everywhere, resumption is harmless for ever: after one pass over an ordered prefix any number of
      longer and longer passes ends as the single whole import. */
  lemma {:induction false} AnyNumberOfResumptions(file: seq<Line>, stops: seq<nat>)
    requires InOrder(file) && forall i :: 0 <= i < |stops| ==> stops[i] <= |file|
    requires forall i, j :: 0 <= i < j < |stops| ==> stops[i] <= stops[j]
    ensures ImportedInParts(file, stops) == if stops == [] then [] else Imported([], file[..stops[|stops| - 1]])
  {
    if |stops| > 1 {
      var init := stops[..|stops| - 1];
      AnyNumberOfResumptions(file, init);
      var before, now := init[|init| - 1], stops[|stops| - 1];
      assert file[..now][..before] == file[..before];
      PrefixInOrder(file, before);
      ResumeIsWholeExactlyWhenInOrder(file[..now], before);
    }
  }

  /** Importing the file again and again, each time as far as it had been written. */
  function ImportedInParts(file: seq<Line>, stops: seq<nat>): Ledger
    requires forall i :: 0 <= i < |stops| ==> stops[i] <= |file|
  {
    if stops == [] then []
    else Imported(ImportedInParts(file, stops[..|stops| - 1]), file[..stops[|stops| - 1]])
  }

  lemma PrefixInOrder(file: seq<Line>, k: nat)
    requires InOrder(file) && k <= |file|
    ensures InOrder(file[..k])
  {
    forall j: nat | j < k ensures !Early(file[..k], j) {
      assert file[..k][..j] == file[..j] && !Early(file, j);
    }
  }

  /** A score and then its raise: the second run files the early score under the raise it now finds. */
  lemma EarlyScoreIsFiledOnTheSecondRun(id: string, claim: string, outcome: string, day: string)
    ensures var file := [ScoreLine(id, outcome, day, true), RaiseLine(id, claim, true)];
            Imported(Imported([], file), file) != Imported([], file)
  {
    hide Imported;
    var file := [ScoreLine(id, outcome, day, true), RaiseLine(id, claim, true)];
    assert file[1].RaiseLine? && file[..0] == [];
    assert Early(file, 0);
    SecondRunWritesNothing(file);
  }
}
