# Verified models of the strategy engine and the launch pipeline

Two systems are modelled here, each as Dafny modules that follow its own source files.

**The strategy engine** (hunter) turns an authored trading rule into a compiled one and
decides, at each print or tick of a coin, whether to buy, sell, move on or give up.

- `Metrics`, `Rules`: readings, conditions (an OR of AND arms), the compiled rule, entry,
  the pre-entry veto, one held step.
- `MonoKills`: the derived disarm and why it loses no entry.
- `ClockHorizons`, `RuleReqs`, `Settled`, `StampLimits`: how long a quiet coin can still
  change a decision, when its ticks may be skipped, and exactly where that stops being safe.
- `Veto`: a buy that would sell straight back.
- `Readout`: the read-only mirror of the held side.
- `Compile`, `CompilerWalk`, `Interning`, `CompiledRules`, `CompileMeaning`,
  `AuthoredDecisions`, `AuthoredActions`: the compiler as an object that interns columns and
  numbers lines, and the proof that the compiled rule takes the decisions, and does the
  actions, the authored rule asks for by name. `PrintLines`: the lines that read the print,
  and a position that follows one wallet. `AuthoredSettling`, `AuthoredVeto`: the skip and
  the veto told of authored rules.
- `DupeGuards`, `DupeGuardRuns`: the duplicate-identity guard against
  an unbounded log.
- `Portions`, `Grouping`, `Printers`: sell sizes, partitions and group keys, printed forms.

**The launch pipeline** (forge) plans an atomic token launch, disguises and gates the plan,
funds the wallets, submits the bundle and confirms it.

- `LaunchProtocol`, `LaunchSafety`, `LaunchOutcome`: the request, any number of executors and
  the watcher as interleaved steps over the shared rows, and what every run keeps.
  `LaunchBids`, `LaunchProgress`: that every retry is used before a bundle is given up, that
  nobody is ever stuck, and which ends are reached.
  `LaunchReleases`, `LaunchSignatures`, `LaunchDrops`: exactly when wallets are handed back
  too early, a create signature is lost, a bundle is past executing. `LaunchRaces`: two
  runs on the failing sides.
- `Words`, `Rng`, `Disguises`, `Plans`, `PlanGate`, `Macros`: words and their numbers, the
  generator, the disguise drawn from it, what makes a plan buildable, the gate, and the
  macros that write plans.
- `Funding`, `Treasury`: what a leg wallet is funded to, and one funding pass.

Each decision reads a coin through one function from metric, fingerprint and instant to a
real or `Undefined`, so the theorems hold for every coin. Loops and objects of the source
are methods and classes proved against specification functions; the theorems are about
those functions. Times are whole milliseconds. The clock, the network, the database, the
address parser and the audit are parameters or nondeterministic events.

## What the proofs found

Where the code and its description differ, the model follows the code.

- A trailing window is closed at both ends, but a coin counts as settled at `now >= until`.
  At that very instant the newest print can still be inside the window
  (`StampAtTheEdgeLosesAnEntry`); the stamp is safe for a rule, and for all of them, exactly
  strictly past it: `StampIsSoundIffStrictlyPastTheWindow`,
  `StampServesEveryRuleIffPastTheWindow`.
- Clock horizons are clamped to seven days, so a later age threshold is never waited for:
  `AgeSettlesIffReached`, `AgeThresholdSettlesIffWithinTheClamp`.
- The settled stamp is also taken on a print. A rule that tells the print from a tick, by a
  fact of the print family or by `buyer_is_new`, which the crowd family lists and a tick
  clears, can lose the entry its next tick would take (`StampOnAPrintCanLoseAnEntry`).
  `PrintStampIsSoundIff` is the exact condition for one fact, `SettledPrintRepeats` the
  check for a whole rule.
- The veto looks at `always` and the first stage's `on` lines, never at `at_end`. A coin
  already past an age deadline is bought and sold at once (`AtEndLineEscapesTheVeto`):
  `BuySellsBackIffTheStageIsOver`.
- The guard's cap drops the mint that was first in, not the oldest: a mint recorded again
  keeps its place. `CapDropIsHarmlessIff` says exactly when that changes an answer, and only
  attempts recorded without a check can bring it about. A sweep is unobservable exactly
  while the cutoff has not moved back (`SweepIsUnobservableIff`); a window made longer moves
  it back (`WideningRevealsASweep`).
- A bundle is claimed by compare-and-swap, but the request that cannot execute it cleans the
  whole launch up, though another executor holds it, and so does the watcher whose re-bid
  finds it taken. With any executors, a created launch keeps its wallets out of the pool
  exactly when neither happened: `CreatedWalletsAreUsedIffNeverReleased`; a run where one
  did: `ManualExecutionCanStrandTheLaunch`.
- The create signature is written after the submission is recorded, and the watcher writes
  back the one it read. `SignatureLostIffStampedOutOfTurn` says for which orders of the three
  the created launch does not carry its bundle's, `CreatedCarriesItsSignatureIff` what the
  watcher must see for it to; a run where it is lost: `SignatureCanBeOverwritten`. Without a
  re-bid, a stamp that comes after the watcher's write still puts it right.
- The settings say a dropped bundle stays for a manual execution (`config.rs:27-31`), but
  executing one requires `planned`, and nothing makes a dropped one planned again:
  `DroppedBundleCannotBeExecuted`.
- The worst-case priority fee is cut to 64 bits, and a persona's ranges may be reversed:
  `MaxFeeIsTheWorstCaseIff`, `DrawIsBoundedIffOrdered`.
- A funding pass books no transfer fee, so a treasury drained to the last spendable lamport
  ends below its reserve on chain (`ExactDrainEndsBelowReserve`). `FeesComeOutOfTheReserve` is
  the exact condition at the last pick; `RaisedReserveCoversTheFees` the reserve that avoids it.
- Text, flag and missing fields of a group key carry no predicate:
  `PredicatesSelectTheGroupIff`.
- Operation ids are 32-bit and wrap in a release build: `IdsUniqueIffTheyFit`.
- The span of the full 64-bit range wraps to zero, and the draw divides by it:
  `PanicsOnTheFullRangeAlone`.
- The leg funding target is a 64-bit sum, exact for every quote only if the personas' worst
  fee and tip leave room: `TargetIsExactIffItFits`. It adds the worst fee to the worst tip
  though they may be two personas', and then more is asked for than any leg can take
  (`SplitWorstsOverfund`): `TargetIsLeastIff`. With the shipped personas it is the least:
  `BuiltinTargetIsLeast`.

## Model

| member | source | states |
|---|---|---|
| `Metrics.OperatorsAreOpposites` | hunter/engine/src/metrics/evaluator.rs:60-79 | of each pair of opposite operators exactly one holds, in the same band |
| `Rules.VerdictMeaning` | hunter/engine/src/arm.rs:851-913 | an open try buys exactly when the retry gate would; a miss ends the coin, spends the slot or waits exactly as each lock says |
| `Rules.TreeCell` | hunter/engine/src/arm.rs:811-816 | the cell is always one of the table |
| `Rules.Phase` | hunter/engine/src/arm.rs:811-816 | the number of leading `until`s that hold, the next one not holding |
| `Rules.Situation` | hunter/engine/src/arm.rs:811-816 | the first `when` that holds, else the last situation |
| `Rules.FirstActing` | hunter/engine/src/arm.rs:1049-1079 | the line picked acts, and none is picked only when none acts |
| `Rules.FirstVeto` | hunter/engine/src/arm.rs:839-849 | a veto exists exactly when some sell line with work to do already holds |
| `Rules.BagSellTakesTheShare` | hunter/engine/src/arm.rs:957-992 | a copied sell takes the share it read, the nearest basis points and at least one, everything when that is the whole bag, nothing when it cannot be read |
| `MonoKills.ArmMonoUpper` | hunter/engine/src/arm.rs:326-344 | the scan yields the tightest upper bound of the arm |
| `MonoKills.ArmBoundIsTightest` | hunter/engine/src/arm.rs:262-275 | an arm bound is crossed at exactly the values from which some condition of the arm can never hold again |
| `MonoKills.KillIsExact` | hunter/engine/src/arm.rs:280-291 | a kill fires exactly when every arm holds a condition no later value can satisfy |
| `MonoKills.BindingBoundCrossesLast` | hunter/engine/src/arm.rs:292-305 | the binding bound exists exactly when every arm is dead, and any value crosses it exactly when it crosses all of them |
| `MonoKills.DeriveMonoKills` | hunter/engine/src/arm.rs:725-737 | the derived kills are those of the monotonic metric conditions with a bounded arm, in order |
| `MonoKills.DisarmsExactlyWhenAConditionIsDead` | hunter/engine/src/arm.rs:917-921 | the rule disarms exactly when some monotonic entry condition is dead as now read |
| `MonoKills.DisarmLosesNoEntry` | hunter/engine/src/arm.rs:915-921 | once the disarm fires, no later instant of a run of non-decreasing monotonic reads buys, whatever the lock |
| `MonoKills.PhaseOnlyMovesForward` | hunter/engine/src/rule_params.rs:233-239 | a stage tree phase never goes back, though nothing about it is stored |
| `ClockHorizons.AbsorbAll` | hunter/engine/src/arm.rs:711-723 | one pass absorbs every condition and every deadline |
| `ClockHorizons.ThresholdsWithinIffUnclamped` | hunter/engine/src/metrics/grid.rs:98-106 | a condition's clock thresholds lie within the horizons exactly when the seven-day clamp cut none short |
| `ClockHorizons.CompiledHorizonsCover` | hunter/engine/src/arm.rs:376-410 | the horizons of a compiled rule, and any wider ones, cover all its conditions and deadlines |
| `ClockHorizons.UnionReachesEach` | hunter/engine/src/arm.rs:366-374 | the union of bounded horizons is bounded and reaches each of them |
| `ClockHorizons.DerivedHorizonsAreBounded` | hunter/engine/src/arm.rs:376-410 | compiled horizons are between zero and the clamp |
| `ClockHorizons.DerivedHorizonsAreLeast` | hunter/engine/src/arm.rs:376-410 | of all bounded horizons that reach every threshold, span and deadline the derived ones are the least |
| `ClockHorizons.WholeMillisecondSpansFit` | hunter/engine/src/metrics/mod.rs:523-525 | spans written in whole milliseconds keep their horizon through rounding |
| `RuleReqs.AllReqsMissesNothing` | hunter/engine/src/arm.rs:1096-1117 | the condition walk visits every condition of entry, lines, tree and signals |
| `RuleReqs.EntryAgrees` | hunter/engine/src/arm.rs:851-913 | two sets of readings that agree on every condition enter alike |
| `RuleReqs.HeldAgrees` | hunter/engine/src/arm.rs:994-1079 | two sets of readings that agree on every condition and deadline hold alike |
| `Settled.SettledTicksRepeat` | hunter/engine/src/reduce.rs:869-898 | with no trade, two ticks past the horizons take the same entry, held step and dead verdict |
| `Settled.OneStampServesEveryRule` | hunter/engine/src/state.rs:596-606 | past the union of all horizons, every loaded rule decides alike on every later tick |
| `Settled.SettledTicksDisarmAlike` | hunter/engine/src/arm.rs:917-921 | the derived disarm is settled too |
| `Settled.SpanIsAnAge` | hunter/engine/src/metrics/mod.rs:479-487 | a print is inside a span exactly from the lag to lag plus size, both ends included |
| `Settled.DeadMeans` | hunter/engine/src/deadness.rs:38-46 | dead is below thirty SOL and five minutes without a meaningful trade, and no settle horizon ends before those five minutes |
| `Settled.SettledPrintRepeats` | hunter/engine/src/reduce.rs:1248-1262 | a verdict stamped on a print repeats on ticks whenever no condition of the rule tells that print from a tick |
| `StampLimits.PrintStampIsSoundIff` | hunter/engine/src/reduce.rs:1248-1262 | a rule of one condition on a fact of the print, or its absence, keeps the stamped verdict exactly when the condition reads the fact as it reads a tick |
| `StampLimits.StampOnAPrintCanLoseAnEntry` | hunter/engine/src/metrics/crowd_after_age.rs:126-138 | the print of a fifth buyer answers no, takes the stamp, and every tick it silences would have bought |
| `StampLimits.StampIsSoundIffStrictlyPastTheWindow` | hunter/engine/src/reduce.rs:1248-1262 | stamped at `now >= until`, a quiet-window rule's verdict repeats for ever exactly when `now` is strictly past the closed window |
| `StampLimits.StampServesEveryRuleIffPastTheWindow` | hunter/engine/src/reduce.rs:1248-1262 | every rule the horizons cover decides for ever as at the stamp exactly when the stamp is strictly past the longest window |
| `StampLimits.StampAtTheEdgeLosesAnEntry` | hunter/engine/src/reduce.rs:1248-1262 | a coin whose horizon is its window's edge: stamped there with a no, bought by any later tick |
| `StampLimits.AgeSettlesIffReached` | hunter/engine/src/metrics/grid.rs:70-106 | on any coin, an age rule is settled past its horizon exactly when the coin is old enough for it there |
| `StampLimits.AgeThresholdSettlesIffWithinTheClamp` | hunter/engine/src/metrics/grid.rs:70-106 | so a threshold within seven days always settles, and on a coin that never traded no later one does |
| `AuthoredSettling.WrittenConditionSettles` | hunter/engine/src/metrics/mod.rs:523-525 | a condition with spans in whole milliseconds and clock thresholds within seven days can be waited for |
| `AuthoredSettling.CompiledSettlesIffAuthoredDoes` | hunter/engine/src/arm.rs:376-410 | a validated rule compiles to one the skip applies to exactly when its own spans, thresholds and deadlines can be waited for |
| `AuthoredSettling.AuthoredRuleSettles` | hunter/engine/src/reduce.rs:869-898 | such a rule, as authored, answers its entry block alike on settled ticks and does the same with a held position |
| `Veto.VetoNamesTheFirstLine` | hunter/engine/src/arm.rs:839-849 | the veto names the first line, in order, that would sell |
| `Veto.BuyDoesNotSellStraightBack` | hunter/engine/src/arm.rs:826-913 | after a buy, a sell on the same reads comes from a line reading our position, a tree cell the position moved the coin into, or a deadline already passed |
| `Veto.VetoedBuyWouldActAtOnce` | hunter/engine/src/arm.rs:839-849 | had the vetoed buy been made, the step would have taken the first vetted line that acts, the vetoing one or an earlier one, and the vetoing line would have sold |
| `Veto.BuySellsBackIffTheStageIsOver` | hunter/engine/src/arm.rs:839-849 | a treeless rule sells on the reads that bought exactly when its first stage is over and the first of `always` and `at_end` to act sells |
| `AuthoredVeto.AtEndLineEscapesTheVeto` | hunter/engine/src/rule_params.rs:799-834 | a valid authored rule on that side: a coin past an age deadline is bought and sold on the same reads |
| `Readout.ListLines` | hunter/engine/src/readout.rs:158-169 | the list holds every line with its place, in order |
| `Readout.ReadoutDeterminesTheHeldLine` | hunter/engine/src/readout.rs:187-218 | for a rule without a tree, the first line in play that holds and is not idle is exactly the line the engine picks |
| `CompilerWalk.Compiler.Req` | hunter/engine/src/arm.rs:499-512 | a read interns its column once, and its id stays right whichever columns come later |
| `CompilerWalk.Compiler.Conds` | hunter/engine/src/arm.rs:514-526 | the live conditions, compiled, with their columns interned in order |
| `CompilerWalk.Compiler.Lines` | hunter/engine/src/arm.rs:538-555 | the live lines, numbered on from the counter |
| `CompilerWalk.Compiler.ShortcutLine` | hunter/engine/src/arm.rs:557-569 | a shortcut takes the next number and interns nothing |
| `CompilerWalk.Compiler.Signals` | hunter/engine/src/arm.rs:606-625 | signal groups keep their live metric conditions; emptied groups are dropped |
| `CompilerWalk.Compiler.Stages` | hunter/engine/src/arm.rs:634-651 | each stage with both lists and where its deadline leads |
| `CompilerWalk.Compiler.TreeSide` | hunter/engine/src/arm.rs:655-698 | phases, situations, entries and the cell table of a tree |
| `CompilerWalk.CellTable` | hunter/engine/src/arm.rs:665-687 | each cell's most specific entry and whether a buy may start there |
| `Compile.EntryIsTheMostSpecific` | hunter/engine/src/arm.rs:665-680 | of the entries that cover a cell the most specific is found, the first of its kind, and none only when none covers it |
| `Compile.MayBuyMeans` | hunter/engine/src/arm.rs:681-684 | a buy may start in a cell when nothing is listed or the cell, its phase, its situation or everything is |
| `CompilerWalk.CompileRule` | hunter/engine/src/arm.rs:590-770 | the imperative walk produces the rule the specification describes, names resolved, kills and horizons derived |
| `Compile.SharedColumnIff` | hunter/engine/src/arm.rs:499-512 | two fingerprints share a read's column exactly when it names no tag of theirs |
| `Interning.CompiledReqsAreTheLiveOnes` | hunter/engine/src/arm.rs:590-770 | the conditions of a compiled rule are exactly the live authored ones and the two shortcuts |
| `Interning.InterningIsSound` | hunter/engine/src/arm.rs:498-568 | columns are distinct, every read id names its own column, and no column is there without a reader |
| `CompiledRules.HeldLinesAreNumbered` | hunter/engine/src/arm.rs:1081-1087 | the i-th held line carries index i |
| `CompiledRules.SameEntrySameReads` | hunter/engine/src/arm.rs:601-605 | two rules with one fingerprint and one entry block read their entry through the same ids and carry the same kills |
| `CompileMeaning.ConditionsKeepTheirMeaning` | hunter/engine/src/arm.rs:774-783 | a compiled condition list holds exactly when the authored one does, signals included |
| `CompileMeaning.CompiledRuleIsWellFormed` | hunter/engine/src/arm.rs:590-770 | a validated rule compiles to one every decision is defined on |
| `CompileMeaning.TolerancesAreTheMetrics` | hunter/engine/src/arm.rs:499-512 | each condition carries its metric's own `=` band |
| `AuthoredDecisions.CellIsTheAuthoredOne` | hunter/engine/src/arm.rs:811-825 | the compiled cell is the authored phase and situation: its entry's lines, its permission to buy |
| `AuthoredDecisions.VetoIsTheAuthoredOne` | hunter/engine/src/arm.rs:839-849 | the compiled veto is the authored one |
| `AuthoredDecisions.CompiledEntryIsTheAuthoredOne` | hunter/engine/src/arm.rs:851-860 | the compiled rule may buy exactly when the authored entry block lets it |
| `AuthoredDecisions.CompiledVerdictIsTheAuthoredOne` | hunter/engine/src/arm.rs:862-913 | an open try of the compiled rule buys, ends the coin, spends the slot or waits exactly as the authored block, its own `lock` included, asks for |
| `AuthoredActions.SizesAreClamped` | hunter/engine/src/arm.rs:538-555 | an authored percent becomes the nearest basis points, from one basis point to ninety-nine percent |
| `PrintLines.PrintLinesAreMarked` | hunter/engine/src/arm.rs:570-587 | a compiled line is marked as reading the print exactly when a reading it compares, its own or a signal's, is a fact of this one print |
| `PrintLines.KnownPrintReads` | hunter/engine/src/arm.rs:570-575 | which readings those are: the print family and spans of one print, in no other unit |
| `PrintLines.FollowerActsIff` | hunter/engine/src/arm.rs:1049-1079 | a position that follows one wallet acts on such a line on that wallet's print only, on any other as if it followed nobody |
| `AuthoredActions.ShareIsTheAuthoredOne` | hunter/engine/src/arm.rs:957-969 | a copied sell reads the share its authored line names |
| `AuthoredActions.CompiledActionIsTheAuthoredOne` | hunter/engine/src/arm.rs:981-1003 | the compiled rule does what the authored rule asks for: the same sell with the same size and label, the same move, or nothing |
| `AuthoredDecisions.CompiledStepIsTheAuthoredOne` | hunter/engine/src/arm.rs:1049-1079 | every held step of the compiled rule is the one the authored rule asks for, by name |
| `DupeGuards.DupeGuard.SetPolicy` | hunter/engine/src/dupe_guard.rs:91-95 | zero hours means the default window |
| `DupeGuards.WindowMs` | hunter/engine/src/dupe_guard.rs:91-95 | the window in milliseconds, four hours for zero |
| `DupeGuards.UnsetGuardIsOff` | hunter/engine/src/dupe_guard.rs:111-136 | a guard not configured, or switched off, blocks nothing, and unconfigured records nothing |
| `DupeGuards.DupeGuard.IsBlocked` | hunter/engine/src/dupe_guard.rs:111-131 | blocks exactly when another mint of the identity was attempted inside the window |
| `DupeGuards.DupeGuard.Record` | hunter/engine/src/dupe_guard.rs:135-153 | a known mint only moves its time forward, a ninth drops the first in |
| `DupeGuards.DupeGuard.Prune` | hunter/engine/src/dupe_guard.rs:157-170 | at most one sweep a minute, keeping exactly the attempts inside the window |
| `DupeGuards.SweepsAMinuteApart` | hunter/engine/src/dupe_guard.rs:157-170 | after a sweep the next changes nothing for sixty seconds, and is due from then on |
| `DupeGuardRuns.GuardNeverOverblocks` | hunter/engine/src/dupe_guard.rs:111-170 | under any operations in any order, the guard blocks only what an unbounded log blocks |
| `DupeGuardRuns.SweepIsUnobservableIff` | hunter/engine/src/dupe_guard.rs:157-170 | a sweep changes no answer, whatever is remembered, exactly when the cutoff asked about is no earlier than the one swept at |
| `DupeGuardRuns.WideningRevealsASweep` | hunter/engine/src/dupe_guard.rs:91-95 | whenever the window grows after a sweep, some run answers wrong until time has caught up |
| `DupeGuardRuns.GuardAnswersLikeTheLog` | hunter/engine/src/dupe_guard.rs:111-170 | under check-then-record the guard answers exactly like the log, and one identity never has two live mints |
| `DupeGuardRuns.CapDropIsHarmlessIff` | hunter/engine/src/dupe_guard.rs:135-153 | an unchecked ninth mint leaves the answers right exactly when the dropped mint is not the newest live one |
| `DupeGuardRuns.RefreshedMintIsForgotten` | hunter/engine/src/dupe_guard.rs:135-153 | that case happens: a refreshed mint is dropped though it is the newest |
| `LaunchSafety.SubmissionsAreBounded` | forge/launcher/src/bundle_execute.rs:103-221 | over every interleaving, one executor at most is past the claim, each planned status is claimed once, and submissions never exceed retries plus one |
| `LaunchBids.GivenUpOnlyAfterEveryBid` | forge/launcher/src/confirm.rs:148-181 | in every run a bundle is judged not landed only after one submission and every configured retry |
| `LaunchBids.DroppedOnlyAfterEveryBid` | forge/launcher/src/confirm.rs:148-181 | with no lost write and no failed re-bid a submitted bundle is dropped only after exactly retries plus one submissions |
| `LaunchBids.EveryRetryCanBeUsed` | forge/launcher/src/confirm.rs:148-181 | for every number of retries some run submits retries plus one times: the bound is attained |
| `LaunchProgress.NobodyIsStuck` | forge/launcher/src/confirm.rs:110-297 | at every moment of every run the request, the watcher inside a pass and every executor under way can take a step |
| `LaunchProgress.NoMeansCleanedUp` | forge/launcher/src/service.rs:776-803 | the request answers no exactly when it released its wallets and failed the launch |
| `LaunchProgress.EveryEndIsReached` | forge/launcher/src/confirm.rs:110-297 | for every allowed number of submissions some run lands on the last, whole or in part, and rests created with its signature and wallets used; some run fails on the last allowed one |
| `LaunchOutcome.LaunchEndsOnce` | forge/launcher/src/confirm.rs:110-297 | a launch leaves pending at most once; at rest created means every claimed wallet used, failed every one funded |
| `LaunchOutcome.ReservationCheckPasses` | forge/launcher/src/bundle_execute.rs:453-478 | whoever holds the claim finds every leg still reserved to the launch |
| `LaunchOutcome.FailedRebidStillEnds` | forge/launcher/src/confirm.rs:148-181 | a re-bid that cannot resubmit still fails the launch and hands every wallet back |
| `LaunchReleases.CreatedWalletsAreUsedIffNeverReleased` | forge/launcher/src/service.rs:776-803 | with any number of executors, a created launch at rest has all its wallets used exactly when no cleanup ran on the way |
| `LaunchRaces.ManualExecutionCanStrandTheLaunch` | forge/launcher/src/service.rs:776-803 | a run in which one did: created at rest, with every spent wallet back in the funded pool |
| `LaunchSignatures.CreatedCarriesItsSignatureIff` | forge/launcher/src/confirm.rs:221-248 | a created launch carries its bundle's create signature exactly when the watcher had read it there, or, if the stamp was still to come, when nothing was re-bid |
| `LaunchSignatures.SignatureLostIffStampedOutOfTurn` | forge/launcher/src/bundle_execute.rs:255-280 | told by order: lost exactly when the request stamps between the watcher's read and write, or after a re-bid's own stamp |
| `LaunchRaces.SignatureCanBeOverwritten` | forge/launcher/src/confirm.rs:221-248 | a run of one request and the watcher, to rest: created, wallets used, no create signature |
| `LaunchDrops.FateIsFinal` | forge/launcher/src/bundle_execute.rs:103-113 | once a bundle's fate is written nothing claims or submits it again, and whoever tries gets an error |
| `LaunchDrops.DroppedBundleCannotBeExecuted` | forge/launcher/src/config.rs:27-31 | a dropped bundle leaves nothing to execute by hand, whatever is tried afterwards |
| `Rng.MixIsInvertible` | forge/orchestrator/src/rng.rs:30-36 | every output gives its state back |
| `Rng.DifferentSaltsDiffer` | forge/orchestrator/src/rng.rs:22-36 | for one wallet, different salts give different n-th outputs, for every n |
| `Rng.PanicsOnTheFullRangeAlone` | forge/orchestrator/src/rng.rs:40-47 | of all 64-bit ranges, the span is zero and the draw panics on the full one alone |
| `Rng.MixIsOnto` | forge/orchestrator/src/rng.rs:30-36 | every 64-bit word is an output |
| `Rng.KnownOutputs` | forge/orchestrator/src/rng.rs:30-36 | the first outputs of SplitMix64 from zero, in numbers |
| `Words.WordsAreBelow` | forge/orchestrator/src/rng.rs:40-47 | every word is a number below two to the 64 |
| `Words.EveryNumberIsAWord` | forge/orchestrator/src/rng.rs:40-47 | every number below two to the 64 is the value of a word |
| `Rng.DrawIsTheRemainder` | forge/orchestrator/src/rng.rs:40-47 | a draw is the lower end plus the output's remainder by the span |
| `Rng.EveryValueIsDrawn` | forge/orchestrator/src/rng.rs:40-47 | every value of the range is drawn from some state |
| `Rng.SameDrawIffCongruent` | forge/orchestrator/src/rng.rs:40-47 | two states draw the same value exactly when their outputs are congruent by the span |
| `Rng.EveryIndexIsDrawn` | forge/orchestrator/src/rng.rs:50-55 | every index below the length is drawn |
| `Rng.ChanceIsPctOfAHundred` | forge/orchestrator/src/rng.rs:58-67 | a roll succeeds exactly on outputs whose remainder by a hundred is below the percentage |
| `Rng.ChanceGoesBothWays` | forge/orchestrator/src/rng.rs:58-67 | strictly between 0 and 100 percent some state succeeds and another fails |
| `Rng.RangeOf` | forge/orchestrator/src/rng.rs:40-47 | every other draw lies in its range; a reversed range yields its lower end |
| `Rng.ChanceOf` | forge/orchestrator/src/rng.rs:58-67 | never at 0 percent, always at 100 |
| `Rng.SplitMix64.NextU64` | forge/orchestrator/src/rng.rs:30-36 | the state advances once and the output is the mix of it |
| `Rng.SplitMix64.Range` | forge/orchestrator/src/rng.rs:40-47 | one draw, or none when the range is a point or reversed, on every range the source does not panic on |
| `Rng.SplitMix64.Index` | forge/orchestrator/src/rng.rs:50-55 | an index below the length |
| `Rng.SplitMix64.Chance` | forge/orchestrator/src/rng.rs:58-67 | a roll of a hundred, except at the ends |
| `Rng.Fnv1a` | forge/orchestrator/src/rng.rs:72-79 | the fold over the bytes |
| `Rng.KnownHashes` | forge/orchestrator/src/rng.rs:72-79 | hashes of known texts, in numbers |
| `Rng.OneByteChangesTheHash` | forge/orchestrator/src/rng.rs:72-79 | names that differ in one byte never share a hash |
| `Plans.PreparedIffLegal` | forge/orchestrator/src/provider.rs:151-206 | an operation prepares exactly when its variant exists, fits kind and amount, its addresses parse and its dependencies exist |
| `Plans.CatalogSays` | shared/executor/pumpfun/src/catalog.rs:84-219 | which encodings of each kind take which amounts, and each encoding's stage and account layout, row by row |
| `Plans.FirstThingWrongIsReported` | forge/orchestrator/src/provider.rs:151-206 | an illegal operation is refused for the first of its defects in the order they are checked |
| `Plans.FindDuplicate` | forge/orchestrator/src/provider.rs:138-142 | the first operation whose id comes again, if any |
| `Plans.PrepareEach` | forge/orchestrator/src/provider.rs:144-148 | every operation prepared in order, or the error of the first that does not |
| `Plans.Prepare` | forge/orchestrator/src/provider.rs:136-149 | a plan is accepted exactly when its ids are unique and every operation is legal, and its first defect is reported |
| `Disguises.ChooseVariant` | forge/orchestrator/src/disguise.rs:126-154 | one of the persona's fitting encodings, else the authored one |
| `Disguises.DrawTip` | forge/orchestrator/src/disguise.rs:157-173 | a snipe always tips, another buy by odds, nothing else |
| `Disguises.DrawDisguise` | forge/orchestrator/src/disguise.rs:86-113 | the draws in order from one generator |
| `Disguises.DisguiseLands` | forge/orchestrator/src/disguise.rs:9-22 | the limit covers the measured cost, the fee is never zero, tips follow the policy |
| `Disguises.TipPolicy` | forge/orchestrator/src/disguise.rs:157-177 | a snipe tips, another buy exactly on outputs within its persona's percentage, nothing else ever |
| `Disguises.OtherBuysTipAtTheirOdds` | forge/orchestrator/src/disguise.rs:157-177 | strictly between 0 and 100 percent such a buy tips from some state and not from another |
| `Disguises.EveryFittingVariantIsDrawn` | forge/orchestrator/src/disguise.rs:126-155 | every fitting encoding of the persona is drawn from some state |
| `Disguises.EveryHeadroomIsDrawn` | forge/orchestrator/src/disguise.rs:86-117 | every headroom of the range is drawn from some state |
| `Disguises.EveryPriceIsDrawn` | forge/orchestrator/src/disguise.rs:86-117 | every price of the range is drawn from some state |
| `Disguises.EveryTipIsDrawn` | forge/orchestrator/src/disguise.rs:157-177 | every tip of the range is drawn from some state |
| `Disguises.DrawnEncodingCostsTheSame` | forge/orchestrator/src/disguise.rs:72-84 | whatever encoding is drawn is measured at the operation's own cost, a transfer at 10 000 units |
| `Disguises.LimitCoversTheCost` | forge/orchestrator/src/disguise.rs:86-117 | the limit is cost plus headroom, saturating at 32 bits |
| `Disguises.LockedEncodingLands` | forge/launcher/src/plan_pipeline.rs:107-114 | the limit also covers the encoding a locked operation keeps |
| `Disguises.DisguiseKeepsTheOperation` | forge/orchestrator/src/disguise.rs:126-154 | the drawn encoding has the same kind and stage and can encode the same amount |
| `Disguises.DisguiseIsStable` | forge/orchestrator/src/disguise.rs:86-113 | disguising the disguised operation draws the same again |
| `Disguises.Assign` | forge/orchestrator/src/personas.rs:111-116 | a wallet's persona is one of the set |
| `Disguises.OperationsOfOneWalletDrawApart` | forge/orchestrator/src/disguise.rs:119-122 | two operations of one wallet never draw from the same stream |
| `PlanGate.Gate` | forge/launcher/src/plan_pipeline.rs:92-152 | validate, disguise, validate again, check layouts, audit; the second validation never fails |
| `PlanGate.DisguisePreservesThePlan` | forge/launcher/src/plan_pipeline.rs:97-119 | a legal plan stays legal and changes in its encodings only; locked operations not at all |
| `PlanGate.DisguiseIsIdempotent` | forge/launcher/src/plan_pipeline.rs:97-114 | disguising the disguised plan changes nothing |
| `PlanGate.GatingAgainChangesNothing` | forge/launcher/src/plan_pipeline.rs:79-152 | a gated plan passes the gate again with the same operations, disguises and report |
| `PlanGate.LookupFindsTheDrawnDisguise` | forge/launcher/src/plan_pipeline.rs:68-74 | looking a disguise up by operation id finds the one drawn for it |
| `Macros.IdSeq.Next` | forge/orchestrator/src/plan.rs:399-403 | hands out the counter and steps it, wrapping at 32 bits |
| `Macros.BundleLaunchOps` | forge/orchestrator/src/macros.rs:68-123 | create, an optional dev buy, then the co-buys, each depending on the create |
| `Macros.VolumeOps` | forge/orchestrator/src/macros.rs:136-172 | one buy or sell a leg |
| `Macros.ExitOps` | forge/orchestrator/src/macros.rs:182-204 | one sell a leg |
| `Macros.ConsolidateOps` | forge/orchestrator/src/macros.rs:216-242 | one sweep a wallet, each after the given operations |
| `Macros.FundOps` | forge/orchestrator/src/macros.rs:254-270 | one transfer a target |
| `Macros.IdsUniqueIffTheyFit` | forge/orchestrator/src/plan.rs:387-408 | ids drawn in order are unique exactly when they fit in 32 bits |
| `Macros.MacrosComposeToAValidGraph` | forge/orchestrator/src/macros.rs:68-270 | any composition over one sequence has dependencies that only point back, and unique ids exactly when they fit |
| `Macros.MacrosNeverDangle` | forge/orchestrator/src/provider.rs:199-203 | preparing such a plan never reports a dangling dependency |
| `Macros.MacrosAreLegal` | forge/orchestrator/src/macros.rs:68-272 | macros given fitting encodings and keys that parse compose to a legal plan whenever the ids fit |
| `Macros.LaunchSays` | forge/orchestrator/src/macros.rs:68-134 | what a bundle launch says, operation by operation |
| `Macros.OtherMacrosSay` | forge/orchestrator/src/macros.rs:136-272 | what each other macro says, operation by operation |
| `Funding.MaxFeeIsTheWorstCaseIff` | forge/orchestrator/src/personas.rs:122-131 | the worst-case fee covers every persona exactly when no fee is cut short by the 64-bit cast |
| `Funding.DrawIsBoundedIffOrdered` | forge/orchestrator/src/rng.rs:40-47 | a draw stays at or below its range's top exactly when the range is not reversed |
| `Funding.DrawnCostIsBounded` | forge/orchestrator/src/disguise.rs:86-113 | what a persona draws for a curve buy costs at most its top fee and top tip |
| `Funding.TargetIsExactIffItFits` | forge/launcher/src/funding_plan.rs:54-71 | the 64-bit target is the exact sum for every quote exactly when the personas' worst fee and tip leave room |
| `Funding.TopsAreHeld` | forge/orchestrator/src/personas.rs:122-140 | the worst fee and the worst tip are each some persona's own |
| `Funding.DrawsArePermitted` | forge/orchestrator/src/disguise.rs:86-117 | what is drawn for a buy is one of the disguises the target is measured against |
| `Funding.TargetIsLeastIff` | forge/launcher/src/funding_plan.rs:40-71 | the target suffices for every permitted draw, and is the least that does exactly when one persona reaches both the worst fee and the worst tip |
| `Funding.SplitWorstsOverfund` | forge/launcher/src/funding_plan.rs:40-71 | two personas on the failing side: a smaller target would pay for every draw |
| `Funding.BuiltinTarget` | forge/launcher/src/funding_plan.rs:54-71 | the shipped target in lamports, term by term, a negative budget counting as none |
| `Funding.BuiltinTargetIsLeast` | forge/launcher/src/funding_plan.rs:54-71 | no smaller target pays for every leg the shipped personas may draw |
| `Funding.FundedLegCanPay` | forge/launcher/src/funding_plan.rs:40-71 | a leg wallet funded to the target, when it fits, pays buy, rents, fees and tip and keeps the rent-exempt minimum |
| `Funding.BuiltinLegCanPay` | forge/launcher/src/plan_exec.rs:53-78 | with the shipped personas and the co-buy's minimum tip, the target always suffices |
| `Treasury.PickSource` | forge/launcher/src/wallet_funding.rs:160-167 | the richest treasury that covers the amount alone, the last of equals, or none exactly when none covers it |
| `Treasury.SplitKeepsEveryClaim` | forge/launcher/src/wallet_funding.rs:362-373 | splitting claims by address loses and repeats none |
| `Treasury.FundingPass.OverCap` | forge/launcher/src/wallet_funding.rs:387-387 | the wrapping check of the cap is exact |
| `Treasury.FundingPass.RefreshBlockhash` | forge/launcher/src/wallet_funding.rs:448-478 | one blockhash reused, refreshed after twenty sends, kept when refreshing fails |
| `Treasury.FundingPass.BookSend` | forge/launcher/src/wallet_funding.rs:484-490 | a send draws exactly its amount from one treasury and settles its wallet |
| `Treasury.FundingPass.FundOne` | forge/launcher/src/wallet_funding.rs:381-513 | the pass stops exactly at a rail and nothing moves; else one outcome, as the network answers decide, a send drawn from the best treasury and booked |
| `Treasury.FundingPass.SkipRest` | forge/launcher/src/wallet_funding.rs:389-413 | at a rail every unsent claim is reverted, in order |
| `Treasury.FundingPass.RevertBadAddresses` | forge/launcher/src/wallet_funding.rs:362-373 | exactly the claims with a bad address are reverted, in order |
| `Treasury.FundingPass.FundUntilRail` | forge/launcher/src/wallet_funding.rs:381-513 | each transfer before the first rail is funded on the books the one before it left |
| `Treasury.FundingPass.FundAll` | forge/launcher/src/wallet_funding.rs:381-513 | the transfers up to the first rail are funded, that one and the rest skipped |
| `Treasury.FundingPass.FundRole` | forge/launcher/src/wallet_funding.rs:336-514 | a role's outcomes are its bad addresses, what was funded and the rest skipped; a dry run spends nothing |
| `Treasury.FundingPass.FundOnce` | forge/launcher/src/wallet_funding.rs:336-514 | each role starts from the books the last one left, a rail ends the pass, and across roles spent equals drawn equals sent, at most the cap, reserves kept, each claimed wallet sent or reverted |
| `Treasury.EveryClaimHasOneOutcome` | forge/launcher/src/wallet_funding.rs:336-514 | the outcomes of a pass are those of the wallets it claimed, one each |
| `Treasury.EveryWalletSentOrReverted` | forge/launcher/src/wallet_funding.rs:336-514 | a claimed wallet is sent or reverted and, claimed once, never both |
| `Treasury.FeesComeOutOfTheReserve` | forge/launcher/src/wallet_funding.rs:138-167 | a treasury keeps its reserve on chain exactly when what it could spend at its last pick covered that amount and a fee for each send booked to it |
| `Treasury.RaisedReserveCoversTheFees` | forge/launcher/src/wallet_funding.rs:138-144 | with the reserve raised by a fee for each wallet claimed, no treasury spent from ends below the true one |
| `Treasury.ExactDrainEndsBelowReserve` | forge/launcher/src/wallet_funding.rs:138-144 | a treasury drained to the last spendable lamport ends below its reserve |
| `Portions.NeverOversells` | hunter/engine/src/event.rs:455-468 | no sequence of sells sells more than the bag, and one `All` empties it |
| `Portions.RemainderSellsMakeProgress` | hunter/engine/src/event.rs:455-468 | positive shares of the remainder empty the bag in at most as many steps as it has tokens |
| `Portions.SellTakesTheMost` | hunter/engine/src/event.rs:455-468 | each portion takes the most tokens its share and what is left allow; a positive share of the remainder that rounds to none takes one |
| `Portions.RemainderSellsLeaveTheirShares` | hunter/engine/src/event.rs:455-468 | after k shares of the remainder what is left is within k tokens of the exact product of what each leaves |
| `Portions.WholeBagInSharesLeavesLittle` | hunter/engine/src/event.rs:455-468 | shares of the first bag that make up the whole leave fewer tokens than there are sells |
| `Grouping.PartitionPoint` | hunter/engine/src/grouping.rs:241-253 | the bisection counts the edges at or below the value |
| `Grouping.WindowsTile` | hunter/engine/src/grouping.rs:241-253 | every value is in its own window, and in another's exactly when the windows are the same |
| `Grouping.Quantiles` | hunter/engine/src/grouping.rs:210-231 | ascending edges at the quantiles above the smallest value, every window holding an observed value |
| `Grouping.SameGroupIff` | hunter/engine/src/grouping.rs:384-418 | two tokens are of one group exactly when no planned field tells them apart, an empty label list being none |
| `Grouping.KeyPredicatesSelectTheGroup` | hunter/engine/src/grouping.rs:330-341 | matching a key's predicates is agreeing with the key on every field that carries one |
| `Grouping.PredicatesSelectTheGroupIff` | hunter/engine/src/grouping.rs:330-446 | the predicates select exactly the group when every field carries one, and only then |
| `Printers.SolLabelReadsBack` | hunter/engine/src/grouping.rs:471-478 | a SOL label reads back to the same lamports |
| `Printers.SolLabelsAreDistinct` | hunter/engine/src/grouping.rs:471-478 | no two amounts share a label |
| `Printers.LogFileNameReadsBack` | hunter/engine/src/event_log.rs:53-73 | a file name reads back to its date and segment |
| `Printers.SegmentWidth` | hunter/engine/src/event_log.rs:53-60 | a segment is printed in two digits up to ninety-nine and as many as it takes beyond |
| `Printers.SegmentZeroHasOneSpelling` | hunter/engine/src/event_log.rs:61-73 | a name that reads as segment zero is the one printed for its date, with no number in any spelling |

## Left out

- The print-exit flag, selling while a buy is still in flight, and the explanation of which
  entry conditions block: separate reads of the same conditions.
- Copy expansion: the compiler is modelled on the expanded rule.
- Authored rules are taken as validated (every name resolves, stage names differ, signals
  hold metric conditions only); the validator itself is not modelled.
- Widths of line, stage and cell indices (16 and 8 bits): indices are unbounded here.
- Automatic labels of unlabelled sell lines: any function from line to text.
- The token track, metric series, event reduction and engine state: a reading is any
  function. `Settled` fixes only what its skip needs: which readings a clock moves, which a
  trade moves, and that spans in seconds are closed. Spans in slots and prints are taken to
  move with trades only. Re-entry cooldowns and manual episodes are not part of it.
- Position metrics other than the two clocks are any function of the position at the coin's
  price.
- Floating-point rounding: reals, with every NaN and infinity as `Undefined`.
- Stage trees in the readout: the readout lists no tree lines.
- LaunchSafety.SubmissionsAreBounded: the attempt counter is unbounded, where the source
  keeps 32 bits and an 8-bit tip level.
- LaunchOutcome.LaunchEndsOnce: one request and the watcher, every repository write
  succeeding, no reservation sweep. Other executors are in `LaunchReleases`, failed writes in
  `LaunchSafety` and `LaunchDrops`.
- LaunchReleases.CreatedWalletsAreUsedIffNeverReleased: every repository write succeeds; a
  settling write that is lost leaves its wallets reserved.
- LaunchSignatures.CreatedCarriesItsSignatureIff: one request and the watcher, as for
  `LaunchOutcome.LaunchEndsOnce`; a third executor would be one more stamp in the order.
- The launch protocol is a state machine over values, one event a repository write; the
  rows are not objects updated in place, because the writers are separate processes.
- The launch without bundlers, the create floor and the dev wallet's funding figure.
- RPC, database, Jito and metadata uploads: nondeterministic outcomes.
- Keys, encryption, transaction building and the curve simulation behind a slippage floor.
- The audit rules and the layout rails: pure functions the gate is given.
- Venues: every catalog row belongs to the one venue there is. Variant names are an
  enumeration of the catalog's, with one case for any other text.
- PlanGate.Gate: the audit's findings are one opaque report.
- Treasury.FundingPass.FundOnce: what promotes sent wallets to funded afterwards, the
  treasury balance write-back and the jitter of amounts (any 64-bit amounts are allowed).
- Funding.FundedLegCanPay: the network's fees and rents at their default rates; what the
  venue takes comes out of the buy.
- Grouping: stored JSON keys, filter parsing and rendered windows.
- Printers.LogFileNameReadsBack: the date parser is modelled on the printed shape; a date
  library that accepts more spellings reads the printed ones the same.
- Configuration, command lines, frontends, caps, deadness beyond its verdict, identity
  hashing and unit conversion.
