# Paper desk verification

A Dafny model of the parts of a trading engine in which a mistake costs money or a record: the paper trading desk as a
state machine, the scorer, the scheduler's pass loop, stop reconciliation, the escalation importer, the return
correlation, the option expiry rule and the flattening of verdict schemas. `dafny verify dfyconfig.toml` checks all of
it.

## How the desk is modelled

`Ledger.Db` holds the tables `calls`, `call_tightenings`, `proposals` (with their posting columns), `proposal_outcomes`,
`paper_fills`, `paper_marks`, `paper_book` and the resolutions. A row id is the row's position, so `id` order is table
order. `Desk` gives each tool's decision as a function of the tables and its inputs: quotes, reactions, post results,
the correlation measurements and the ATR are arbitrary inputs. `DeskRuns` turns those decisions into steps. A funded
call is two steps, a check and a commit, and every other step may happen between them. A run is any sequence of enabled
steps from empty tables under a clock that does not go back. `DeskInvariant` holds the invariant and the proof that
each write keeps it; `DeskTheorems`, `DeskCaps`, `DeskCallRuns`, `DeskEntries`, `DeskExits`, `DeskScores`,
`Conservation` and `DeskVeto` hold the results over runs, `DeskCalls` the exact conditions of the PM's tools, and
`DeskWitness` one run in full. `DeskStore.Store` is the same desk as an object whose methods
change its tables in place; its loops are proved to be paths of the machine, so the results over runs are results about
the loops.

Prices and amounts are reals and times are microseconds of Eastern wall time. `Rules` is a constant of a run; the
results over runs need a stop-limit percentage above 0 and at most 100, a chase percentage of at least 0 and quotes
that are not negative.

Five promises do not hold as they are stated. Each has the exact condition and a failing input beside it:

- a veto deadline can fall after an early close when the entry window opens too late for a whole veto window
  (`DeskTheorems.StoredDeadlineBeforeClose`, `DeskTheorems.DeadlineAfterAnEarlyClose`);
- a funded call can leave a book over a cap when a held name is marked down between its check and its commit
  (`DeskCaps.CommitMeetsCapsExactly`, `DeskWitness.AMarkBetweenCheckAndCommitBreaksACap`);
- an entry can leave a book over a cap when its symbol still has a mark from an earlier trade
  (`DeskCaps.EntryMeetsCapsExactly`, `Sizing.AMarkCanBreakACap`);
- a resumed or repeated import is not the same as a single one when a score stands before its raise in the part
  imported first (`Importer.ResumeIsWholeExactlyWhenInOrder`, `Importer.EarlyScoreIsFiledOnTheSecondRun`);
- `output_schema` promises no `$defs`, but a `$defs` below the root, or one that the root's own reference brings in,
  stays (`Inline.OutputHoldsNoDefsExactlyWhen`, `Inline.NestedDefsStay`, `Inline.ReferredDefsStay`).

## Model

| member | source | states |
|---|---|---|
| Money.FloorCents | engine/tc/money.py:14-16 | the result is a whole number of cents, at most the amount and less than a cent below it |
| Money.FloorCentsUnique | engine/tc/money.py:14-16 | no other whole-cent amount has that property, so the rounding mode is pinned |
| Money.CeilCents | engine/tc/desk/sizing.py:157-174 | the rounding up used for an invalidation: a whole number of cents, at least the amount and less than a cent above |
| Money.CeilCentsUnique | engine/tc/desk/sizing.py:157-174 | no other whole-cent amount has that property |
| Money.Cents | engine/tc/money.py:19-20 | a whole number of cents, within half a cent of the amount, never negative for a non-negative amount |
| Money.CentsAreHalfEven | engine/tc/money.py:19-20 | a number of cents is the result exactly when it is nearest, and even on a tie |
| Money.CapDollars | engine/tc/rules/arith.py:26-27 | a percentage cap in dollars is never rounded up and is within a cent of the exact share |
| Clock.TradingDaysBetween | engine/tc/clock.py:62-82 | the counting loop returns the weekdays in the half-open span, zero when the span is empty or backwards |
| Clock.WeekdaysAreCounted | engine/tc/clock.py:62-82 | the count is the number of days after the first, up to and with the second, that are Monday to Friday |
| Calls.ExtensionOf | engine/tc/desk/calls.py:104-115 | answers a call that extends this one, and none exactly when no call does |
| Calls.CurrentCallId | engine/tc/desk/calls.py:104-110 | the loop terminates and returns the end of the extension chain |
| Calls.CurrentCall | engine/tc/desk/calls.py:104-110 | the end of the chain is no earlier than the call, in the table when the call is, and is not itself extended |
| Calls.CurrentIsCallOrItsExtension | engine/tc/desk/calls.py:104-115 | in a table with one extension each, the governing call is the call itself or its unique extension |
| Calls.CurrentAfterNewCall | engine/tc/desk/calls.py:57-73 | a new call that extends nothing leaves every other call's governing call alone |
| Calls.AppendKeepsOneExtension | engine/tc/desk/pm.py:323-349 | an extension accepted by the guards keeps "no call extended twice, no extension extended" |
| Sizing.CheckIsCapsOnTheNextBook | engine/tc/desk/sizing.py:100-154 | the guard on the old book passes exactly when the book that carries the order meets the count, reserve, single-name, option, open-premium and cluster caps against its own equity |
| Sizing.UnitsAreTheMost | engine/tc/desk/sizing.py:78-97 | at a positive price the quantity is the largest the budget covers, and sizing refuses exactly when that is none |
| Sizing.TriggerPct | engine/tc/rules/arith.py:37-44 | the stop distance is the ATR multiple inside the band and the nearer bound outside it, the maximum winning |
| Sizing.TriggerNotTooFar | engine/tc/rules/arith.py:37-44 | the rounded trigger is at most the widest percentage of the fill, plus half a cent, below the fill |
| Sizing.LimitSitsBelow | engine/tc/desk/sizing.py:157-174 | the limit is strictly below its trigger |
| Sizing.StopInNumbers | engine/tc/rules/arith.py:37-44 | the trigger is within half a cent of its percentage under the fill, the limit the last whole cent at or under its percentage under the trigger |
| Sizing.StopIsTheHigher | engine/tc/desk/sizing.py:157-174 | a stop is accepted exactly when both the ATR price and the rounded-up invalidation are under the fill, and its trigger is the higher of the two |
| Sizing.WhatAHoldingCounts | engine/tc/desk/sizing.py:122-154 | what one holding adds to each cap: to its name, to the open premium, to a cluster by name, correlation or shared benchmark |
| Sizing.StopGeometry | engine/tc/desk/sizing.py:157-174 | an accepted stop has limit < trigger < fill, trigger at or above the invalidation, within the maximum distance plus half a cent, and the limit is the one formula of the trigger |
| Ledger.FillMovesCash | engine/tc/desk/paper.py:209-218 | a fill moves cash by its price times its quantity, times a hundred for an option, out for a buy and in for a sell |
| Ledger.PositionInNumbers | engine/tc/desk/paper.py:311-320 | a position counts at its symbol's mark, else its entry price, times quantity, times a hundred for an option, with the premium that was paid |
| Ledger.PledgeInNumbers | engine/tc/desk/paper.py:321-333 | a pending proposal counts at its limit times quantity, times a hundred for an option |
| Ledger.ListsExactly | engine/tc/desk/paper.py:147-160 | pending is without an outcome, unposted also without a posting, committed also without a buy |
| Ledger.Outside | engine/tc/desk/paper.py:147-160 | a table read "not in" returns exactly the missing ids, oldest first, once each |
| Ledger.SettlingOne | engine/tc/desk/paper.py:264-341 | settling one more proposal takes exactly its worst case off the commitment and exactly one row off the list |
| Ledger.PledgesAreWorthTheCommitment | engine/tc/desk/paper.py:323-334 | the pending holdings are worth exactly what was taken off cash for them |
| Ledger.EquityIgnoresCommitments | engine/tc/desk/paper.py:293-341 | equity is start equity plus cash flow plus marked positions whatever is pending; leaving one pending proposal out adds back exactly its worst case |
| Ledger.PositionsChangeOne | engine/tc/desk/paper.py:189-206 | fills of one proposal change only that proposal's rows of the position list |
| Ledger.BoughtHasFills | engine/tc/desk/paper.py:264-273 | a proposal counts as bought exactly when it has a buy fill of its own |
| DeskInvariant.WriteMoney | engine/tc/desk/paper.py:163-186 | the exact change of net cash and of occupied slots for every kind of write |
| DeskInvariant.OnlyFundingTakesMoney | engine/tc/desk/watch.py:107-169 | a fill, an expiry, an exit, a posting, a mark or a tightening never lowers net cash nor takes a slot |
| DeskInvariant.KeepsCallsOk | engine/tc/desk/calls.py:57-130 | accepted calls, extensions and tightenings keep the call table well-formed: levels around the stamped price, extensions of the same name, direction and benchmark, one each |
| DeskInvariant.KeepsRowsOk | engine/tc/desk/paper.py:113-186 | every write keeps references resolvable and outcomes at most one per proposal |
| DeskInvariant.KeepsFillsOk | engine/tc/desk/paper.py:163-186 | every write keeps each proposal's fills empty, one buy, or one buy and one equal sell |
| DeskInvariant.KeepsLifeOk | engine/tc/desk/watch.py:68-169 | every write keeps the entry-fill conditions (price, posting, deadline or approval, cutoff, same day, stop) and every stored veto deadline equal to the one of its posting moment |
| DeskInvariant.KeepsMoneyOk | engine/tc/desk/sizing.py:111-121 | every write keeps net cash at or above min(start equity, reserve) and the slot limit |
| DeskInvariant.KeepsPledgeOk | engine/tc/desk/pm.py:237-288 | a call checked but not yet written keeps its money and its place through any write that funds nothing |
| DeskInvariant.WriteKeepsInv | engine/tc/desk/paper.py:113-186 | every justified write keeps the whole invariant |
| DeskInvariant.WritesKeepInv | engine/tc/desk/watch.py:68-255 | so does any list of them that funds nothing, and net cash does not fall over it |
| DeskRuns.SubmittedPledgeIsOk | engine/tc/desk/pm.py:165-288 | a call the tool accepts leaves the reserve and a slot free after its worst case, in the book it was checked against |
| DeskRuns.PlanIsPositive | engine/tc/desk/pm.py:165-234 | a plan has a positive quantity and limit; shares only for an up call |
| DeskRuns.TakenEntryIsSound | engine/tc/desk/watch.py:107-169 | an entry taken is at a positive ask no higher than the limit and carries a sound stop, or none for an option |
| DeskRuns.EntryIsJustified | engine/tc/desk/watch.py:68-169 | one pending proposal in one pass: no write, one non-fill outcome, or one fill with its outcome, each meeting every entry condition |
| DeskRuns.PositionIsItsBuy | engine/tc/desk/paper.py:189-206 | an open position is its proposal's single buy, field by field |
| DeskRuns.SalePriceIsNotNegative | engine/tc/desk/watch.py:172-255 | whatever the exit reason, the sale price is not negative |
| DeskRuns.ExitIsJustified | engine/tc/desk/watch.py:202-255 | one position in one pass: nothing, a mark, or a mark and one sale of the full quantity |
| DeskRuns.PostIsJustified | engine/tc/desk/post.py:70-122 | an unposted proposal is expired, or posted once with a message and its veto deadline on the day it was made |
| DeskRuns.PmStepIsJustified | engine/tc/desk/pm.py:323-372 | extensions and tightenings make only writes whose guards hold |
| DeskRuns.StepIsJustified | engine/tc/desk/watch.py:68-276 | every step but a commit makes only justified writes, none of which funds anything |
| DeskRuns.CommitApplied | engine/tc/desk/pm.py:269-288 | a commit appends the call and, if funded, its proposal, and changes nothing else |
| DeskRuns.CommitKeepsGood | engine/tc/desk/pm.py:269-288 | committing a checked call keeps the invariant even after other steps in between |
| DeskRuns.StepKeepsGood | engine/tc/desk/paper.py:264-341 | every step keeps the invariant, and only a commit can lower cash net of commitments |
| DeskRuns.EnabledStepsCanBeTaken | engine/tc/desk/paper.py:113-186 | every row that an enabled step names in a write, in any table, is there when the write is made |
| DeskRuns.EveryStateIsGood | engine/tc/desk/paper.py:264-341 | the invariant holds in every state of every run from empty tables |
| DeskRuns.TakeEntry | engine/tc/desk/watch.py:68-104 | an entry step closes at most its own proposal; the rest of the list stays pending |
| DeskRuns.TakeExit | engine/tc/desk/watch.py:202-255 | an exit step marks and sells at most its own position; the rest of the list stays open |
| DeskRuns.TakeExpiry | engine/tc/desk/paper.py:276-290 | an expiry step settles exactly its own proposal |
| DeskRuns.TakePost | engine/tc/desk/post.py:70-122 | a posting step closes or posts exactly its own proposal |
| DeskRuns.SubmitIsCheckThenCommit | engine/tc/desk/pm.py:237-288 | an accepted call is a check step and a commit step of the machine, ending in a good state |
| DeskRuns.PmToolIsAStep | engine/tc/desk/pm.py:323-372 | an accepted extension or tightening is one step of the machine, ending in a good state |
| Conservation.FlowSplitsByProposal | engine/tc/desk/paper.py:209-218 | summing cash by fill and summing it by proposal agree |
| Conservation.FlowOfShape | engine/tc/desk/paper.py:189-261 | one proposal's cash flow is its closed trade's profit less its open position's cost |
| Conservation.CashIsConserved | engine/tc/desk/paper.py:189-261 | cash is start equity plus the profit of closed trades less the entry cost of open positions |
| DeskVeto.NothingReadsTheFlag | engine/tc/desk/paper.py:147-341 | the lists and the derived book are the same with every veto flag erased |
| DeskVeto.EntryWritesErased | engine/tc/desk/watch.py:85-169 | erasing the veto reaction changes the entry step's writes in the recorded flag only |
| DeskVeto.StepErased | engine/tc/desk/watch.py:68-276 | erasing veto reactions and flags maps steps of the machine to steps of the machine |
| DeskVeto.ReactionsMean | engine/tc/desk/approval.py:101-108 | a veto counts when it was read, an approval when both emoji were read, and a failed read shows |
| DeskVeto.VetoReadsChangeNothing | engine/tc/desk/approval.py:101-108 | the same from the raw emoji reads: runs that differ only in what working veto reads said agree; a failed veto read withholds the approval |
| DeskVeto.VetoesChangeNothing | engine/tc/desk/approval.py:101-108 | two runs that differ only in veto reactions agree, at every step, on every table but the flag, and so on fills, positions and the derived book |
| DeskTheorems.ReserveIsNeverBreached | engine/tc/desk/sizing.py:111-121 | in every state of every run, cash net of pending worst cases is at least min(start equity, reserve), and positions plus pending never exceed the limit |
| DeskTheorems.CashIsAlwaysConserved | engine/tc/desk/paper.py:189-261 | conservation and the fill shape hold in every state of every run |
| DeskCaps.FundedCallIsCarried | engine/tc/desk/pm.py:269-288 | the book after a funded call is the book before it with exactly one more holding at worst case, equity unchanged |
| DeskCaps.FundedCallLeavesCapsMet | engine/tc/desk/pm.py:194-234 | a funded call whose check and commit are separated by any number of postings, expiries, scorings, entries of unmarked names and exit passes without fresh quotes leaves a book that meets every cap against its own equity |
| DeskCaps.CommitMeetsCapsExactly | engine/tc/desk/pm.py:194-288 | whatever happened since the check, the committed book meets every cap exactly when the check would pass on the book at the commit; equity is unchanged by the commit |
| DeskWitness.AMarkBetweenCheckAndCommitBreaksACap | engine/tc/desk/pm.py:194-288 | an eight-step run from empty tables in which a held name is marked down between check and commit and the committed book is over the single-name cap |
| DeskWitness.ItIsARun | engine/tc/desk/watch.py:68-255 | that run starts a book, funds, posts and fills a call without approval, checks a second one, marks the first and commits the second |
| DeskCaps.SafeStepEases | engine/tc/desk/watch.py:68-169 | each such step leaves equity as it is, no less cash, and no more counted against any cap |
| DeskCaps.EntryIsTaken | engine/tc/desk/paper.py:293-341 | the book after an entry is the book without its proposal, the price paid taken from cash, and one holding inserted at its mark |
| DeskCaps.EntryMeetsCapsExactly | engine/tc/desk/watch.py:144-165 | the book an entry leaves meets every cap exactly when the entry fits at its mark; with no stored mark, exactly when the fill-time check passes |
| DeskCaps.EveryEntryPassedTheCaps | engine/tc/desk/watch.py:144-165 | in every run every entry fill passed the caps at the price paid against the book without its proposal, and with no stored mark the book it left meets them |
| Sizing.TakenFitsAtItsMark | engine/tc/desk/sizing.py:100-154 | a book that took an order is within every cap exactly when the order fits at its mark |
| Sizing.FitsAtItsCost | engine/tc/desk/sizing.py:100-154 | fitting at cost is passing the guard |
| Sizing.AMarkCanBreakACap | engine/tc/desk/sizing.py:100-154 | an order the guard passes that no longer fits once it is marked above its cost |
| Sizing.EasedBookPasses | engine/tc/desk/sizing.py:100-154 | the guard is monotone: a book no tighter for an order passes it too |
| DeskExits.PositionLeavesExactlyWhen | engine/tc/desk/watch.py:172-255 | in every run an exit pass takes its position out of the book exactly when both quotes are fresh and a level is met, the option is at the close-out, the call is resolved after ten, or the PM asked; otherwise the positions are unchanged |
| DeskExits.ExitMarksItsOwn | engine/tc/desk/watch.py:227-228 | in every run an exit pass with fresh quotes marks its own symbol at the underlying's last price for shares and at the contract's own bid for an option; one without changes nothing |
| DeskExits.OnlyExitsMark | engine/tc/desk/watch.py:227-228 | no other step of a run moves a mark |
| DeskExits.HeldAtItsQuote | engine/tc/desk/paper.py:311-320 | a position a fresh pass leaves open is worth, in the derived book, its quantity times that price, times a hundred for an option |
| DeskExits.ReasonsInOrder | engine/tc/desk/watch.py:172-240 | the recorded reason is the first that holds: stop or invalidation, target, close-out, resolved call, the PM |
| DeskExits.StopSells | engine/tc/desk/watch.py:176-192 | in every run a share position whose underlying is at or under its live trigger is sold in full in that pass, at the trigger, or at the bid once under the limit |
| DeskExits.HitExactlyWhenItMustLeave | engine/tc/desk/watch.py:172-240 | there is a sale exactly when something calls for one, and every sale but a stop is at the bid |
| DeskScores.EveryCallScoresWithItsSign | engine/tc/desk/scoring.py:158-182 | every call of every run, on whatever bars it is scored, has a strictly positive return at a target and a strictly negative one at an invalidation |
| DeskTheorems.EveryEntryIsGood | engine/tc/desk/watch.py:73-116 | in every run no proposal has two outcomes, and every entry fill is within its limit, posted with a message, after its deadline or an approval, before 15:55, on the day it was made and posted |
| DeskTheorems.EntryWaitsOutTheVeto | engine/tc/desk/post.py:70-122 | in every run an entry fill nobody approved came at least a whole veto window after its posting and after the opening of the entry window |
| DeskTheorems.EveryPostingHasItsStep | engine/tc/desk/post.py:84-122 | every stored posting of a run is the row one posting step wrote before the posting end, with the veto deadline of its moment, and never changes |
| DeskTheorems.StoredDeadlineBeforeClose | engine/tc/desk/post.py:57-122 | the stored deadline falls before the close its posting step knew exactly when a whole veto window fits after the entry window opens |
| DeskTheorems.EveryEntryHasItsStep | engine/tc/desk/watch.py:258-276 | every entry fill was written by a watch step of its own proposal at its own time in regular hours |
| DeskTheorems.DeadlineBeforeClose | engine/tc/desk/post.py:57-122 | a proposal that may be posted has its veto deadline before the known close exactly when a whole veto window fits between the entry window opening and the close; in particular whenever the entry window opens before the posting end |
| DeskTheorems.DeadlineAfterAnEarlyClose | engine/tc/desk/post.py:57-122 | without that condition it fails: a close at 10:05 puts the deadline after the close |
| DeskTheorems.InvalidationOnlyTightens | engine/tc/desk/pm.py:352-372 | over any stretch of a run a call's governing level only tightens: it never falls for an up call and never rises for a down call |
| DeskTheorems.LiveTriggerIsTheHigher | engine/tc/desk/watch.py:176-184 | the live trigger is the higher of the entry trigger and the governing level rounded up to the cent |
| DeskTheorems.TablesOnlyGrow | engine/tc/desk/paper.py:93-186 | over any stretch of a run rows are only appended, and the start of the book, a posting and a resolution stay as first written |
| DeskCallRuns.TighteningSetsTheLevel | engine/tc/desk/pm.py:352-372 | in every run an accepted tightening leaves its call at exactly the level asked for and every other call where it was; a refused one changes nothing |
| DeskCallRuns.OneOpenBetPerName | engine/tc/desk/pm.py:252-257 | in every state of every run, of two calls on one name and direction in one book the earlier has resolved unless the later is an extension |
| DeskCallRuns.SessionsAreBounded | engine/tc/desk/pm.py:247-251 | no session of any run holds more of the desk's own new calls than the rules allow |
| DeskCallRuns.EveryCallIsWellMade | engine/tc/desk/pm.py:237-288 | every call of every run has a known benchmark, a horizon and levels inside the rules and its own session; every proposal backs its call: name, moment, conviction, instrument, and for shares the chase, the invalidation and the ATR ceiling |
| DeskCalls.AcceptsExactlyWhen | engine/tc/desk/pm.py:237-313 | a call is accepted exactly when it is sound, its name is free, the desk has room for it and, if it asks for money, it is funded; a call on an old position asks for none and needs the position |
| DeskCalls.AcceptedCallSaysWhatWasAsked | engine/tc/desk/pm.py:269-288 | an accepted call carries what was asked, stamped with the three fresh prices of its moment |
| DeskCalls.FreshExactlyWhen | engine/tc/desk/pm.py:127-144 | quotes are taken exactly when the read answered with one at most five minutes old for every symbol |
| DeskCalls.LevelsFitExactly | engine/tc/desk/pitches.py:80-96 | levels pass exactly when the price is strictly between them, the target on the right side, and neither is further than the allowed percentage |
| DeskCalls.NewCallsAreCounted | engine/tc/desk/calls.py:95-101 | the count is the number of the session's parentless calls of the desk's own |
| DeskCalls.FundsExactlyWhen | engine/tc/desk/pm.py:165-234 | money is given exactly for the plan with a sized conviction, a limit that fits, the most units that size pays for at the limit, and a book that takes their worst case |
| DeskCalls.FundedSizeIsTheMost | engine/tc/desk/sizing.py:64-97 | a funded worst case is at most its conviction's percentage of equity, and one more unit, a share or a contract on a hundred, is over it |
| DeskCalls.CorrelatedExactly | engine/tc/desk/pm.py:147-162 | the correlated names are those in the book, other than the symbol, measured over the threshold |
| DeskCalls.ExtendsExactlyWhen | engine/tc/desk/pm.py:323-349 | an extension is accepted exactly for a held call of the desk's own at its horizon that is not one and has none, with sound levels on fresh quotes |
| DeskCalls.ExtensionSaysWhatWasAsked | engine/tc/desk/pm.py:340-349 | an accepted extension carries the new levels and stamps on the old call's terms |
| DeskCalls.TightensExactlyWhen | engine/tc/desk/pm.py:352-372 | a tightening is accepted exactly for a held, unresolved call of the desk's own, to a level strictly between the governing one and the fresh last price |
| Calls.NewestTighteningGoverns | engine/tc/desk/calls.py:125-130 | the governing level is the newest tightening of the call, and its own level while there is none |
| DeskEntries.EveryEntryPassWritesItsFate | engine/tc/desk/watch.py:68-169 | in every run an entry pass writes exactly the outcome its conditions give: waiting, expired, blind, priced out, invalid or filled, with the reactions that counted and the stop |
| DeskEntries.PassExactly | engine/tc/desk/watch.py:68-169 | the writes of one proposal in one pass, condition by condition |
| DeskEntries.OneFate | engine/tc/desk/watch.py:68-169 | those conditions are exhaustive and exclusive |
| DeskEntries.LevelsExactly | engine/tc/desk/watch.py:116-143 | the thesis stands exactly when shares are above their invalidation and their own stop, or an option's underlying is on the right side |
| DeskEntries.PostsExactlyWhen | engine/tc/desk/post.py:70-122 | a proposal is posted exactly when it was made today, in time and its message went out, with its veto deadline; otherwise it expires |
| DeskEntries.EveryPostingWasInTime | engine/tc/desk/post.py:57-93 | every stored posting of a run was before the end of the entry window and a whole veto window before a close that was known |
| DeskEntries.ActsExactlyInSession | engine/tc/clock.py:32-60 | a pass acts exactly between the open and the close of a trading day, the known one or nine-thirty to four on a weekday |
| DeskTheorems.StopOnlyRatchets | engine/tc/desk/watch.py:176-192 | a held share position's live trigger is never below its entry trigger and never drops while the same call governs it |
| DeskTheorems.LimitFollowsTrigger | engine/tc/desk/watch.py:176-192 | the cached and the recomputed limit are the same formula of the live trigger, and below it |
| DeskTheorems.ExtensionsAreOneDeep | engine/tc/desk/pm.py:323-349 | in every run an extension points to an earlier call of the same name, direction and benchmark, no call is extended twice, no extension is extended, and following extensions ends at the call or its one extension |
| DeskStore.Store.Cash | engine/tc/desk/paper.py:209-218 | the loop over fills returns start equity plus the total flow |
| DeskStore.Store.HoldPositions | engine/tc/desk/paper.py:311-322 | the loop builds one holding per open position at its mark |
| DeskStore.Store.HoldPledges | engine/tc/desk/paper.py:323-334 | the loop builds one holding per committed proposal but the excluded one, with their total worst case |
| DeskStore.Store.DeriveBook | engine/tc/desk/paper.py:293-341 | the derived book equals the specification that the equity and reserve results are about |
| DeskStore.Store.ClosedTradeList | engine/tc/desk/paper.py:234-261 | the loop lists exactly the closed trades |
| DeskStore.Store.ClaimPost | engine/tc/desk/paper.py:130-144 | only the first caller claims a posting; a later message never replaces it |
| DeskStore.Store.RecordOutcome | engine/tc/desk/paper.py:163-172 | appends one outcome and nothing else |
| DeskStore.Store.PostOne | engine/tc/desk/post.py:84-122 | one unposted proposal is expired or posted, no other row changes |
| DeskStore.Store.PostProposals | engine/tc/desk/post.py:70-122 | the loop is a path of one posting step per unposted proposal, oldest first, and reports those it posted |
| DeskStore.Store.ExpireStale | engine/tc/desk/paper.py:276-290 | the loop is a path of expiry steps after which a proposal is committed exactly when it was and is from today |
| DeskStore.Store.EnsureBook | engine/tc/desk/paper.py:93-103 | the book starts once; a later equity is ignored |
| DeskStore.Store.SubmitCall | engine/tc/desk/pm.py:237-288 | a refusal writes nothing; success appends the call and, when funded, its proposal |
| DeskStore.Store.ExtendCall | engine/tc/desk/pm.py:323-349 | a refusal writes nothing; success appends the extension the guards allow |
| DeskStore.Store.TightenCall | engine/tc/desk/pm.py:352-372 | a refusal writes nothing; success appends one tightening |
| DeskStore.Store.FillEntry | engine/tc/desk/watch.py:107-169 | the in-place fill step makes exactly the specified writes |
| DeskStore.Store.EntryOne | engine/tc/desk/watch.py:73-104 | one pass over one proposal makes exactly the specified writes |
| DeskStore.Store.Entries | engine/tc/desk/watch.py:68-104 | the entry loop is a path of one entry step per pending proposal and keeps the invariant |
| DeskStore.Store.ExitOne | engine/tc/desk/watch.py:202-255 | one pass over one position makes exactly the specified writes |
| DeskStore.Store.Exits | engine/tc/desk/watch.py:202-255 | the exit loop is a path of one exit step per open position and keeps the invariant |
| DeskStore.Store.Watch | engine/tc/desk/watch.py:258-276 | nothing happens outside regular hours; otherwise one entry step per pending proposal and then one exit step per position open by then, as one path of the machine, so every run-level theorem applies to it |
| Scoring.Resolve | engine/tc/desk/scoring.py:73-136 | the early-return loop equals the recursive scan the theorems are about |
| Scoring.ResolvesAtFirstTouch | engine/tc/desk/scoring.py:79-136 | an answer is given exactly when it is the declarative first touch: least session gapped or touched, invalidation winning inside a bar, else the horizon close |
| Scoring.SessionsAreTheIndexDates | engine/tc/desk/scoring.py:79-82 | the sessions are exactly the index's dates from the item's session on, in order |
| Scoring.LaterEntryCounts | engine/tc/desk/scoring.py:76-78 | of two bars on one date the later entry counts |
| Scoring.ReturnsInNumbers | engine/tc/desk/scoring.py:69-117 | the three returns in numbers, the item's and its benchmark's signed by the direction |
| Scoring.AnswersWhenBarsExist | engine/tc/desk/scoring.py:79-136 | it always answers once the horizon's sessions have their bars |
| Scoring.AnswersAreStable | engine/tc/desk/scoring.py:73-136 | an answer on some bars is the answer on any later history that keeps them |
| Scoring.TruncationChangesNothing | engine/tc/desk/scoring.py:217-241 | dropping bars before the item's session changes no answer |
| Scoring.UpAndDownMirror | engine/tc/desk/scoring.py:93-136 | reflecting prices and flipping direction gives the same day, the same kind and the reflected price |
| Scoring.SignsOfOutcomes | engine/tc/desk/pitches.py:80-90 | targets are strictly positive and invalidations strictly negative returns; an open-through pitch scores zero against everything |
| Scoring.GrowthKeepsSessions | engine/tc/desk/scoring.py:79-92 | appending later sessions keeps the old sessions as a prefix and every stored bar |
| ScoringNights.AnswerReadsItsThreeSeries | engine/tc/desk/scoring.py:217-241 | an answer's prices are those of the item's own bars, the index's and its benchmark's on the day it ends |
| ScoringNights.Earliest | engine/tc/desk/scoring.py:217-223 | the earliest open session is a lower bound and is attained |
| ScoringNights.InsertResolution | engine/tc/desk/scoring.py:183-198 | a row is written once and never replaced |
| ScoringNights.Score | engine/tc/desk/scoring.py:217-241 | a pass on truncated bars leaves old rows and exactly the answers of the whole history |
| ScoringNights.GrowthKeepsAnswers | engine/tc/desk/scoring.py:73-136 | an item answered on one night keeps its answer on every later history |
| ScoringNights.NightlyIsOnceAtTheEnd | engine/tc/desk/scoring.py:183-241 | scoring every evening, with new items arriving and unscored ones withdrawn, leaves what scoring once on the final history would |
| ScoringNights.OnceIsUnique | engine/tc/desk/scoring.py:183-241 | and that ledger is unique |
| Scheduler.ComputeFiresOn | engine/tc/scheduler.py:62-75 | the loop lists the fires of the day |
| Scheduler.FiresAreExact | engine/tc/scheduler.py:53-75 | a time is a fire exactly when the day matches and it is the start, or a whole stride from it not past the end |
| Scheduler.DaysOfASpec | engine/tc/scheduler.py:53-60 | weekday jobs need a trading weekday, daily jobs nothing, Saturday and Sunday jobs their day |
| Scheduler.DayFiresAreTheJobs | engine/tc/scheduler.py:86-91 | a day's fires are exactly those of the jobs of the schedule, at the times their specs name |
| Scheduler.OnlyJobsOfTheDay | engine/tc/main.py:332-359 | what a pass returns is a fire of a job that day in its grace of 59 seconds, and what it marks missed one past it |
| Scheduler.DayFiresAreToday | engine/tc/scheduler.py:86-91 | every fire enumerated for a day falls on that day |
| Scheduler.Board.Due | engine/tc/scheduler.py:93-100 | returns, without repeats, exactly the unmarked fires in their grace and marks them |
| Scheduler.Board.MarkMissed | engine/tc/scheduler.py:102-109 | returns, without repeats, exactly the unmarked fires past their grace and marks them |
| Scheduler.Board.Prune | engine/tc/scheduler.py:111-124 | drops exactly the marks of earlier days and counts them |
| Scheduler.Board.RecordMissed | engine/tc/main.py:342-351 | every late fire without a row gets a missed one, and a row that is there keeps its verdict |
| Scheduler.Board.RecordRun | engine/tc/main.py:447-464 | a fire that ends leaves its verdict, and an earlier row stays the first |
| Scheduler.RowsKeepTheirVerdict | engine/tc/main.py:342-351 | over any run of passes the first row of a fire keeps its verdict |
| Scheduler.RestartKeepsTheLedger | engine/tc/main.py:342-351 | across a restart every row keeps its verdict, and every new row is that of a fire that ended or a missed row of a late fire that had none |
| Scheduler.Board.Pass | engine/tc/main.py:332-359 | one pass is prune on a new day, then missed, then due; state and both results equal the specification |
| Scheduler.MarksStayForTheirDay | engine/tc/scheduler.py:93-124 | a mark survives every later pass of its day |
| Scheduler.NoFireTwice | engine/tc/scheduler.py:93-124 | over any run with a non-decreasing clock, pruning and any calendar changes, no fire is returned twice, missed twice, or both |
| Scheduler.FiredAndMissedAreDisjoint | engine/tc/scheduler.py:93-124 | fired and missed are disjoint in every state |
| Scheduler.EveryFireIsAccountedFor | engine/tc/main.py:332-359 | after a pass every fire of every job of the schedule that day, at or before now, is in exactly one of the two sets |
| Scheduler.ClosePassesMissNothing | engine/tc/main.py:332-359 | same-day passes at most a grace apart, on the same calendar, miss nothing |
| OptionLife.CalendarDays | engine/tc/desk/options.py:45-49 | the horizon in calendar days is the exact ceiling of seven fifths of it |
| OptionLife.MinDte | engine/tc/desk/options.py:45-49 | the larger of the rules' floor and the horizon in calendar days plus the close-out plus a week |
| OptionLife.SessionsFitTheCalendar | engine/tc/clock.py:62-82 | between two weekdays the days elapsed never exceed the calendar allowance of the sessions |
| OptionLife.OptionOutlivesHorizon | engine/tc/desk/options.py:45-49 | for every horizon and weekday entry, a contract with the minimum days keeps a week more than the forced close needs on the horizon's last session |
| OptionLife.CalendarIsTight | engine/tc/desk/options.py:45-49 | the allowance is attained, so it cannot be lowered |
| Reconcile.SellStopsAre | engine/tc/loops/reconcile.py:41-42 | the statuses, types and single leg that make an order a resting sell stop |
| Reconcile.StopsOn | engine/tc/loops/reconcile.py:41-63 | the stops of a symbol are exactly the resting sell stops on it |
| Reconcile.GroupStops | engine/tc/loops/reconcile.py:45-63 | the dictionary has exactly the symbols with a sell stop, each with its stops |
| Reconcile.SortRows | engine/tc/loops/reconcile.py:45-63 | the rows come out in order and are the same rows |
| Reconcile.SortGroups | engine/tc/loops/reconcile.py:51-52 | every symbol's rows are sorted and are the same rows |
| Reconcile.ViewOfMeans | engine/tc/loops/reconcile.py:53-63 | per symbol: the earliest stop, all stops in order when there are several, and the naked, partial and orphan findings as their names say |
| Reconcile.BuildView | engine/tc/loops/reconcile.py:45-82 | the view built has that meaning, has no finding exactly on a clean book, and its stop count is the number of resting sell stops |
| Reconcile.SilentExactlyWhenClean | engine/tc/loops/tick.py:163-211 | no naked, partial, orphan or duplicate finding exactly when each held symbol has one stop of its own quantity and no other symbol has any |
| Reconcile.FiringNeverShorts | engine/tc/loops/reconcile.py:45-82 | on a clean book any stops that fire sell nothing or all of a held symbol, and nothing else |
| Reconcile.SilentBookCannotGoShort | engine/tc/loops/tick.py:163-211 | when the watches are silent, no set of firing stops makes a position negative |
| Reconcile.StopCountIsExact | engine/tc/loops/reconcile.py:33-38 | the reported stop count is always the number of resting sell stops, duplicates included |
| Importer.Import | engine/tc/research/importer.py:430-516 | the loop leaves the specified ledger and counts exactly the rows it wrote |
| Importer.FreshImport | engine/tc/research/importer.py:448-516 | from an empty ledger the import keeps first raises and every score that follows its raise |
| Importer.ResumeStaysInStep | engine/tc/research/importer.py:487-516 | resuming over an ordered prefix writes nothing for old lines, imports new ones as a fresh import would, and accounts for each id's scores exactly |
| Importer.RaisedFirstFilesAll | engine/tc/research/importer.py:487-516 | into a ledger that holds the raise, no well-formed score of the id is left out |
| Importer.ScoresAreMatchedByPlace | engine/tc/research/importer.py:430-516 | into a ledger that holds the raise an import adds exactly the file's scores that are not already there in their place, in file order |
| Importer.FreshMissesEarly | engine/tc/research/importer.py:487-516 | a fresh import has fewer scores than the file when one stands before its raise |
| Importer.ResumeIsWholeExactlyWhenInOrder | engine/tc/research/importer.py:430-516 | importing a prefix and then the file equals importing the file once, exactly when no score of the prefix stands before a raise of its id in the prefix |
| Importer.SecondRunWritesNothing | engine/tc/research/importer.py:430-516 | a second identical run writes nothing exactly when the file is in that order |
| Importer.AnyNumberOfResumptions | engine/tc/research/importer.py:430-516 | any number of growing partial imports of an ordered file ends as one import of the last part |
| Importer.EarlyScoreIsFiledOnTheSecondRun | engine/tc/research/importer.py:487-516 | a score followed by its raise is filed by the second run: the unconditional promise fails |
| Correlation.WindowIsTheLatest | engine/tc/desk/indicators.py:99-103 | the dates used rise, and every common date left out is earlier than all of them |
| Correlation.LaterCloseCounts | engine/tc/desk/indicators.py:99-100 | of two closes on a date the later entry counts |
| Correlation.ReturnsTelescope | engine/tc/desk/indicators.py:106-107 | for any logarithm the first k returns add up to the move from the first date to the k-th after it, so each is between neighbours |
| Correlation.DeviationsCancel | engine/tc/desk/indicators.py:108-111 | the deviations add up to zero and keep every difference |
| Correlation.PearsonIsTheRatio | engine/tc/desk/indicators.py:112-114 | the answer times the two lengths is the covariance |
| Correlation.CauchySchwarz | engine/tc/desk/indicators.py:109-111 | the squared covariance is at most the product of the variances, with equality exactly when one series is the other stretched |
| Correlation.PearsonBound | engine/tc/desk/indicators.py:108-114 | the ratio exists exactly when both variances are non-zero, lies in [-1, 1], and squares to one exactly on a line |
| Correlation.CorrelationIsBounded | engine/tc/desk/indicators.py:94-114 | whatever the two series, an answer lies in [-1, 1] |
| Correlation.CorrelationIsSymmetric | engine/tc/desk/indicators.py:94-114 | swapping the series gives the same answer |
| Correlation.CorrelationIgnoresScale | engine/tc/desk/indicators.py:94-114 | scaling one series' closes by a positive constant gives the same answer |
| Correlation.SelfCorrelationIsOne | engine/tc/desk/indicators.py:94-114 | a series with itself answers exactly one, or nothing |
| Correlation.InverseCorrelationIsMinusOne | engine/tc/desk/indicators.py:94-114 | a series with its reciprocal answers exactly minus one, or nothing |
| Correlation.NoVarianceExactlyWhenConstant | engine/tc/desk/indicators.py:110-113 | a variance is zero exactly when all returns are equal |
| Correlation.AnswersExactlyWhenBothMove | engine/tc/desk/indicators.py:99-114 | there is an answer exactly with more than n common dates, positive closes on the last of them and two return series that are not constant |
| Inline.NameOf | engine/tc/jobs/spec.py:121-124 | a reference resolves exactly when it is the prefix followed by the name of a definition |
| Inline.InlinedIsRefFree | engine/tc/jobs/spec.py:112-135 | a result holds no string reference anywhere |
| Inline.RefFreeIsFixed | engine/tc/jobs/spec.py:112-135 | a schema without references is returned as it is, whatever the definitions |
| Inline.InliningTwiceIsOnce | engine/tc/jobs/spec.py:112-135 | the result is a fixed point, and only reference-free schemas are |
| Inline.FewerSeen | engine/tc/jobs/spec.py:125-130 | a value does not depend on the definitions being expanded around it |
| Inline.StepReadsTheSame | engine/tc/jobs/spec.py:130-132 | looking up a key or an index in the result equals looking it up in the schema with references followed on demand, siblings first |
| Inline.EveryPathReadsTheSame | engine/tc/jobs/spec.py:112-135 | so does every path: the flat schema says exactly what the original said |
| Inline.OutputIsFlat | engine/tc/jobs/spec.py:88-109 | the output is an object without references; its root keeps a definitions key exactly when following the root's references yields one |
| Inline.OutputHoldsNoDefsExactlyWhen | engine/tc/jobs/spec.py:88-109 | the output is free of definitions keys at every depth exactly when no path, with references followed on demand, ends in one |
| Inline.NoNewKeys | engine/tc/jobs/spec.py:112-135 | a key that neither the schema nor any definition holds is nowhere in the result |
| Inline.ReferredDefsStay | engine/tc/jobs/spec.py:88-109 | a root that refers to a definition with its own definitions key keeps it |
| Inline.NestedDefsStay | engine/tc/jobs/spec.py:88-109 | a nested definitions key stays where it is |
| Inline.InlinedExactlyWhenSafe | engine/tc/jobs/spec.py:112-135 | inside an expansion, inlining succeeds exactly when every chain of references from the node ends well in the depth left |
| Inline.CyclicIsUnsafe | engine/tc/jobs/spec.py:125-129 | a chain that repeats a reference cannot be flattened at any depth |
| Inline.FailsExactlyOnABadChain | engine/tc/jobs/spec.py:112-135 | flattening fails exactly when some chain of references dangles, is cyclic or is longer than eight |

## Left out

- The exit request table: whether the PM asked for an exit of a position is an input of the exit step.
- The text of outcome details, refusal messages, notifier posts and reports.
- The pitch table: an adopted pitch is an input of a call, and each night's list of items is an input of the scorer; that a withdrawal comes before the pitch's session opens is taken from `withdraw_pitch`.
- Reading an option chain and picking candidates: the chosen contract and its days to expiry are inputs.
- ATR and the other indicators besides the correlation.
- Time zones and daylight saving: one Eastern wall clock is used throughout.
- The 28-digit and 40-digit decimal contexts: amounts are exact reals, and logarithm and square root are parameters.
- A crash between a fill and its outcome: the two writes are one step.
- Several PM calls in flight at once, and two `desk_watch` processes at once.
- The missing-bar report, the stuck-item report and the per-pass series cache of the scorer.
- Scoring.Resolve: keeps the exit and reference prices instead of percentages, because a zero reference makes the division raise; the percentages are the functions `Return`, `SpyReturn` and `BenchReturn`.
- Corrections to stored bars: history only grows in the scoring results.
- The per-job lock and the dispatch behind a fire, and the retry timer of the fallback window: the calendar may change between any two passes instead.
- The order of the naked, partial and orphan lists in the stop view: the findings are sets.
- Inline.FailsExactlyOnABadChain: does not tell the two exceptions apart, because which is raised first depends on dictionary order; a definition that is not an object, which cannot be merged, counts as dangling.
- Importer.Import: takes each line's validation verdict from the line, because validation reads that line alone.
- Concurrency inside the store, SQL and the text form of decimals.
- The broker, notifier, HTTP, MCP, runner, briefing, scorecard, universe, configuration and command-line modules.
