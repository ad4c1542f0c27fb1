# A verified model of sidra-ai's stateful cores

This project models, in Dafny 4.11, the parts of sidra-ai that keep state, loop or do arithmetic,
and proves what they promise over all inputs and all runs. `dafny verify dfyconfig.toml` checks it.

| file | what it models |
|---|---|
| RateLimiter.dfy, RateLimiterRuns.dfy | the sliding-window limiter with its bounded, least-recently-used table, and whole runs of it against the unbounded log of admissions |
| FixedStep.dfy | the fixed-step gate (`TICK`, `TICK_FREEZE`) that makes a game independent of the display's refresh rate |
| KnowledgeLock.dfy, AdventureSeeds.dfy | the seeded generator, the shuffled order and the three-mark lock; what a collapsed seed does to the placing |
| AdventureMap.dfy | the adventure's tile maps, how they are built, and collision |
| Adventure.dfy | the adventure's world, one transition at a time |
| AdventureRuns.dfy, AdventureTheorems.dfy | what each transition keeps, and the promises over whole rounds |
| AdventureSteps.dfy | what each operation does, exactly, and not only what it keeps |
| AdventureFooting.dfy | where the hero can stand in any round, and what the walled alcove is worth |
| AdventureFindings.dfy | what the comments promise and the code does not, with the condition and a world for each |
| AdventureGame.dfy | the page's own state, changed in place, against those transitions |
| Excerpts.dfy, ExcerptEdges.dfy | where a cited excerpt opens, and how it is cut |
| ExcerptFindings.dfy | two documents on which it opens or is cut as the comments say it is not |
| Json.dfy, PocketPage.dfy | JSON text as Python writes it and a decoder reads it (RFC 8259), and the page that holds it |
| ScriptData.dfy | what an HTML tokenizer makes of that page's script (WHATWG HTML, section 13.2.5) |
| AuditSink.dfy | the audit log over a kernel that may refuse any call |
| FormatBytes.dfy | the size label |
| Judges.dfy | the three `_compare` verdicts |
| Board.dfy | the backlog board's reader and checks |
| ArtifactPaths.dfy, Adapt.dfy | the free file name, and the difficulty easing |
| Wrappers.dfy, FiniteSets.dfy, Decimals.dfy | what the others share |

Code that changes state is a class or a looping method, proved equal to a function of its inputs
and its old state; the promises are lemmas about those functions. Random draws, player input, the
clock, the kernel's answers, the tokenizer, the output guard and the regular expressions are
arbitrary parameters, so each statement holds for all of them. `hide` statements only keep
proofs cheap.

## Conventions

- Times of the gate are in thirds of a millisecond, so that 1000/60 ms is exactly 50.
- Positions are exact reals. `Math.hypot(a, b) < r` is written with squares.
- The adventure's `Ledger` counts what happened in a round. No transition reads it; it only
  lets a statement speak of the whole round.
- `hitstop`, sound, particles, messages and animation counters have no part in the state.

## Where the code and its own words part

The model follows the code. These are the places where a comment promises something else; each
has the condition under which the promise does hold.

- The limiter calls itself fixed-window; it is a sliding window, closed at 60 s.
- `retry_after` "never sends a client back into the same full window": it does on one instant,
  when the client comes back exactly as advised and the wait was a whole number of seconds
  (`RateLimiterRuns.RetryAdvice`, `RateLimiterRuns.AdvisedAndRefused`).
- Expired clients "are reclaimed before that fail-closed decision": only those ahead of the first
  live one, so a new client is wrongly turned away exactly when the table is full, its least
  recently used client is live and another tracked one is not
  (`RateLimiterRuns.UnseenTurnedAway`); a refused check can make it so
  (`RateLimiterRuns.RefusalHidesAnIdleClient`).
- The gate's slack makes a display whose gap lies between 47 and 50 run ahead of real time
  (`FixedStep.UniformKeepsTime`, `FixedStep.SlackRunsAhead`), and a hold that reaches past the next
  callback buys a free step (`FixedStep.LongHoldIsFree`).
- The village holds "14 tufts" and the worst case pays five gems: three fixed tiles may bury tufts,
  and with the worst luck five are paid exactly when at least thirteen are left
  (`AdventureMap.TuftsInTheForest`, `AdventureTheorems.WorstLuckIsExact`,
  `AdventureFindings.BuriedTuftsFallShort`).
- The tuft "right where the hero wakes" is one tile further right than the first swing reaches
  (`AdventureFindings.FirstSwing`, `AdventureFindings.FirstSwingCanMiss`).
- "Two keys would be a dungeon with a spare under the mat": the sword drops the spare
  (`AdventureFindings.SpareKey`, `AdventureFindings.SpareKeyHappens`).
- A roamer is "never beside the entrance: the chase radius is 4 tiles": one that spawns in column 4
  starts within that radius of a hero at the door, and no other does
  (`AdventureSteps.SpawnsOutsideTheChase`, `AdventureSteps.SpawnsInColumnFour`).
- "Every other mover on this page asks solid()": the guardian's own knock-back does not
  (`AdventureFindings.BladeDrivesGuardIntoWall`, `AdventureFindings.GuardianKeepsToTheFloor`,
  `AdventureFindings.DrivenIntoTheWall`).
- A chest opened by a queued blow wins, and the same frame can still take the win back
  (`AdventureFindings.WinTakenBack`, `AdventureFindings.WinTakenBackHappens`).
- "Every clean start is already a candidate start": not one that stands on a blank
  (`Excerpts.CleanStartIsOpening`, `Excerpts.CleanButNotOffered`,
  `ExcerptFindings.ACleanStartNeverOffered`).
- A figure that "merely ends at the budget" is taken for whole: a grouped figure is split when the
  budget falls on its separator (`ExcerptEdges.GroupsAreSplitAtTheBudget`,
  `ExcerptEdges.AnExcerptEndsInAFigure`, `ExcerptFindings.ACitedFigureIsSplit`).
- Rewriting `</` keeps a chunk from ending the script early, and not from keeping it open: a
  script tag in a comment left open hides the template's end tag
  (`ScriptData.PageEndsItsScript`, `ScriptData.AChunkHidesTheEnd`, `ScriptData.OtherTagsDoNotHelp`).
- A seed that is a multiple of 2147483647 collapses the stream, and the page never wakes
  (`SeededStream.SeedsThatCollapse`, `AdventureSeeds.CollapsedNeverPlaces`).
- The answerable judge's moves do not compose: its guards' small drops add up
  (`AnswerableJudge.MovesCompose`, `AnswerableJudge.TwoMovesCanRegress`).

## Model

| member | source | states |
|---|---|---|
| RateLimiting.RateLimiter.Create | src/sidra_ai/api/app.py:89-94 | a limiter is made, empty, exactly when the client budget is positive |
| RateLimiting.RateLimiter.PruneWindow | src/sidra_ai/api/app.py:110-113 | the loop leaves the window without its leading hits of more than a minute ago |
| RateLimiting.RateLimiter.ReclaimExpiredClients | src/sidra_ai/api/app.py:115-123 | the loop drops expired clients from the old end and stops at the first live one |
| RateLimiting.RateLimiter.Check | src/sidra_ai/api/app.py:125-146 | one check changes the table and answers as the specified step does, and keeps it an ordered dictionary |
| RateLimiting.RateLimiter.RetryAfter | src/sidra_ai/api/app.py:148-165 | the advice, whatever the limit, and that asking for it only prunes the asker's window |
| RateLimiting.CheckWellFormed | src/sidra_ai/api/app.py:129-146 | every check keeps keys distinct and exactly the windows' own |
| RateLimiterRuns.ReclaimForgetsNothingLive | src/sidra_ai/api/app.py:115-123 | reclaiming loses no live hit of any client |
| RateLimiterRuns.StepFaithful | src/sidra_ai/api/app.py:110-165 | each step keeps every window equal, in its live part, to the unbounded log |
| RateLimiterRuns.CapAcrossEvictions | src/sidra_ai/api/app.py:110-146 | in every run no client is admitted more than per_minute times in any closed minute, evictions included, and the table never exceeds max_clients |
| RateLimiterRuns.VerdictIsTheLogs | src/sidra_ai/api/app.py:129-146 | a tracked client is admitted exactly when its whole history has fewer than per_minute live hits; an untracked one has none, and only room decides |
| RateLimiterRuns.FullWindowSlides | src/sidra_ai/api/app.py:129-146 | after a full-window refusal the client is refused until its oldest hit is more than a minute old, and then admitted |
| RateLimiterRuns.RetryAdvice | src/sidra_ai/api/app.py:148-165 | asked at any time after a refusal, with any steps between, the advice covers the wait left and overshoots by a second at most; coming back later than advised suffices, and coming back on the instant fails exactly when the wait was a whole number of seconds, one at least |
| RateLimiterRuns.AdvisedAndRefused | src/sidra_ai/api/app.py:148-165 | that instant exists: a client refused at 0, told 60, and refused again at 60 |
| RateLimiterRuns.UnseenTurnedAway | src/sidra_ai/api/app.py:115-137 | a new client is turned away exactly when the table is full and its least recently used client is live, and rightly so, with that many clients live in the whole log, exactly when every tracked client is |
| RateLimiterRuns.RefusalHidesAnIdleClient | src/sidra_ai/api/app.py:115-146 | a run in which a refused check keeps an expired client tracked and a new one out |
| FixedStep.Gate.Tick | src/sidra_ai/creation/animation.py:91-111 | the callback changes the accumulator and the last stamp, and answers, as specified |
| FixedStep.Gate.TickFreeze | src/sidra_ai/creation/animation.py:124-127 | a hold moves only the last stamp, and only if it is a positive number after a first callback |
| FixedStep.Gate.Callback | src/sidra_ai/creation/animation.py:80-111 | the account of steps a template keeps is raised on exactly the callbacks the gate lets advance, as the runs below count them |
| FixedStep.UnstampedAdvance | src/sidra_ai/creation/animation.py:92 | callbacks without a usable stamp all advance, and leave the gate as it was |
| FixedStep.FirstStampIsKept | src/sidra_ai/creation/animation.py:93 | the first stamp a new gate sees advances and is kept, so time is counted from it |
| FixedStep.TimeIsConserved | src/sidra_ai/creation/animation.py:91-127 | on a schedule whose callbacks are each charged in full, steps and remainder account for exactly the time that was not held |
| FixedStep.StepsAreElapsedTime | src/sidra_ai/creation/animation.py:91-127 | the number of steps is that time divided by a step, rounded down, exactly when no whole step is left waiting |
| FixedStep.RefreshRateIndependence | src/sidra_ai/creation/animation.py:91-127 | any two such schedules over the same unfrozen time, with no whole step left waiting, take the same steps and keep the same remainder |
| FixedStep.FastDisplaysAgree | src/sidra_ai/creation/animation.py:91-127 | any two displays faster than the bar, however uneven, are such schedules |
| FixedStep.StepsFromStart | src/sidra_ai/creation/animation.py:90-111 | a new page steps once for each callback up to its first stamp, and from there as the unfrozen time is worth, exactly when no whole step is left waiting |
| FixedStep.NewPagesAgree | src/sidra_ai/creation/animation.py:90-127 | two new pages on any two displays faster than the bar show the same world the same time after their first stamps |
| FixedStep.UniformIsPaced | src/sidra_ai/creation/animation.py:91-111 | which displays of constant rate are charged in full for n callbacks, exactly |
| FixedStep.SixtyHertzAgrees | src/sidra_ai/creation/animation.py:51-57 | a 60 Hz display and any display of constant rate faster than the bar show the same world after the same time |
| FixedStep.NeverOutruns | src/sidra_ai/creation/animation.py:91-127 | for any forward gaps, steps at the slack bar plus the remainder never exceed the time |
| FixedStep.EveryLongGapAdvances | src/sidra_ai/creation/animation.py:96-111 | a gap of the bar or more always advances, and no stall leaves more than three steps of backlog |
| FixedStep.CatchUpIsBounded | src/sidra_ai/creation/animation.py:91-127 | after a stall the world takes at most three steps more than the time is worth, and never a whole step fewer |
| FixedStep.ChargedExactly | src/sidra_ai/creation/animation.py:94-111 | a callback is charged exactly if and only if time moved forward, the cap was not met and the slack gave nothing away |
| FixedStep.UniformKeepsTime | src/sidra_ai/creation/animation.py:108-111 | exactly when a display of constant rate steps the world in real time |
| FixedStep.SlackRunsAhead | src/sidra_ai/creation/animation.py:108-110 | how far ahead a display between the bar and a step runs |
| SeededStream.DrawIsInvertible | src/sidra_ai/creation/adventure.py:103-111 | a draw can be undone, so the stream never merges two states |
| SeededStream.NeverCollapses | src/sidra_ai/creation/adventure.py:103-111 | the state stays in 1..2147483646 for ever unless the seed is a multiple of the modulus, and then is 0 for ever |
| SeededStream.SeedsThatCollapse | src/sidra_ai/creation/adventure.py:103-111 | only two 32-bit seeds collapse, and every product stays below 2^53 |
| AdventureSeeds.CollapsedNeverPlaces | src/sidra_ai/creation/adventure.py:128-129 | on a collapsed stream every spot drawn is the same, so `carve` never gets past the first, however long it goes on |
| KnowledgeLock.Shuffle | src/sidra_ai/creation/adventure.py:113-114 | the loop computes the specified order |
| KnowledgeLock.Order | src/sidra_ai/creation/adventure.py:113-114 | from any state the order names each mark once |
| KnowledgeLock.ShuffleIsFair | src/sidra_ai/creation/adventure.py:113-114 | two states tell the same order exactly when their two draws are the same |
| KnowledgeLock.OrderIsShuffled | src/sidra_ai/creation/adventure.py:113-114 | the loop's order is the one its two draws make |
| KnowledgeLock.EveryOrderIsTold | src/sidra_ai/creation/adventure.py:113-114 | each of the six orders is told by some state of the stream |
| KnowledgeLock.ProgressStep | src/sidra_ai/creation/adventure.py:302-310 | one knock keeps progress the longest ending of the knocks that begins the order |
| KnowledgeLock.LockIsExact | src/sidra_ai/creation/adventure.py:300-310 | the lock is solved exactly when the order has been knocked without a break |
| AdventureMap.CarveChangesOnlySpots | src/sidra_ai/creation/adventure.py:128-129 | carving writes its code on open floor, two tiles in from every edge, and touches nothing else |
| AdventureMap.BuildIsSound | src/sidra_ai/creation/adventure.py:126-157 | whatever is drawn, side walls are whole but for the doors, landings are clear, and removable tiles stand only where they were put |
| AdventureMap.RemovingKeepsSound | src/sidra_ai/creation/adventure.py:224-264 | taking away grass, the paid door or the charm keeps that |
| AdventureMap.FootprintIsClear | src/sidra_ai/creation/adventure.py:199-203 | four clear corners are a clear footprint |
| AdventureMap.OnADoor | src/sidra_ai/creation/adventure.py:347-350 | a clear hero on a door stands wholly in row 4 |
| AdventureMap.LandingIsClear | src/sidra_ai/creation/adventure.py:348-350 | both landings of a door take such a hero clear |
| AdventureMap.WakesClear | src/sidra_ai/creation/adventure.py:178-181 | the hero wakes clear exactly when neither of two tiles was drawn as grass |
| AdventureMap.TuftsInTheForest | src/sidra_ai/creation/adventure.py:132-141 | how many tufts the forest holds: fourteen, less the buried ones, and the waking one |
| AdventureFindings.BuriedTuftsFallShort | src/sidra_ai/creation/adventure.py:226-237 | a waking that keeps eleven tufts, where no unlucky round pays more than four gems |
| AdventureRuns.CutGrassKeeps | src/sidra_ai/creation/adventure.py:224-237 | a cut keeps every invariant of the round |
| AdventureRuns.TouchPaidDoorKeeps | src/sidra_ai/creation/adventure.py:262-264 | so does a touch of the paid door |
| AdventureRuns.KnockMarkKeeps | src/sidra_ai/creation/adventure.py:300-310 | so does a knock |
| AdventureRuns.StrikeRoamersKeeps | src/sidra_ai/creation/adventure.py:271-274 | so does the blade on the roamers |
| AdventureRuns.StrikeGuardKeeps | src/sidra_ai/creation/adventure.py:278-294 | so does the blade on the guardian |
| AdventureRuns.SwingKeeps | src/sidra_ai/creation/adventure.py:210-294 | so does a swing, and it never loses the round |
| AdventureRuns.MoveHeroKeeps | src/sidra_ai/creation/adventure.py:338-360 | so does the hero's own move, doors, charm and key included |
| AdventureRuns.TakeBlowKeeps | src/sidra_ai/creation/adventure.py:384-397 | so does a blow taken, by roamer or guardian |
| AdventureRuns.MoveRoamersKeeps | src/sidra_ai/creation/adventure.py:369-397 | so does the roamers' turn |
| AdventureRuns.MoveGuardKeeps | src/sidra_ai/creation/adventure.py:404-441 | so does the guardian's |
| AdventureRuns.FrameKeeps | src/sidra_ai/creation/adventure.py:652-656 | so does a frame |
| AdventureRuns.RoundKeeps | src/sidra_ai/creation/adventure.py:210-441 | so does every round |
| AdventureTheorems.WakeIsGood | src/sidra_ai/creation/adventure.py:132-182 | every reset wakes with all the invariants |
| AdventureTheorems.CollisionFreedom | src/sidra_ai/creation/adventure.py:199-264 | once clear, no part of the hero's footprint is ever on a solid tile, through moves, shoves by any vector, swings and rooms |
| AdventureFooting.NeverStuckElsewhere | src/sidra_ai/creation/adventure.py:126-264 | whatever was drawn, in every round the hero is off everything solid or has not left its waking spot |
| AdventureFooting.SlideKeepsOut | src/sidra_ai/creation/adventure.py:151-155 | while the paid door is shut, no move or shove by less than a tile takes a clear hero into the alcove |
| AdventureFooting.CharmIsPaidFor | src/sidra_ai/creation/adventure.py:151-155 | in no round, whatever was drawn, is the charm taken before the door was paid for, while roamers shove by less than a tile (the page's shove is 12) |
| AdventureSteps.OneKeyWalks | src/sidra_ai/creation/adventure.py:338-346 | one held key turns the hero that way and moves it by 2.2 exactly when the ground there is clear |
| AdventureSteps.TwoKeysWalk | src/sidra_ai/creation/adventure.py:339-343 | of opposite keys the right and the lower count, and the hero looks up or down rather than aside |
| AdventureSteps.SlideGoes | src/sidra_ai/creation/adventure.py:332-337 | a move onto clear ground is made whole, and along a wall by the half that is clear |
| AdventureSteps.DoorsLead | src/sidra_ai/creation/adventure.py:347-358 | a door leads one room on or back to its far landing with 45 frames of mercy, the charm is taken whole, and no other tile does anything |
| AdventureSteps.KeyIsTaken | src/sidra_ai/creation/adventure.py:359-360 | a hero near the fallen key in the cave has it, and only so does the key leave the floor |
| AdventureSteps.SwingIsAtTheTip | src/sidra_ai/creation/adventure.py:210-224 | a free arm changes the hero, the maps, the lock and the round just as the tile under its tip does |
| AdventureSteps.CutPays | src/sidra_ai/creation/adventure.py:224-237 | a cut clears its tuft and pays exactly when it is the first, the third after two unpaid, or lucky |
| AdventureSteps.ChestOpens | src/sidra_ai/creation/adventure.py:240-242 | the chest wins the round exactly with the key held and the guardian felled |
| AdventureSteps.DoorOpens | src/sidra_ai/creation/adventure.py:260-262 | the paid door takes two gems and is gone, or takes nothing |
| AdventureSteps.KnockDropsTheKey | src/sidra_ai/creation/adventure.py:300-310 | the knock that solves the lock leaves a key at the hero's feet, exactly if none is held or down |
| AdventureSteps.PressIsKept | src/sidra_ai/creation/adventure.py:211-215 | a press during a swing strikes on the frame the arm comes free, ten frames after the swing |
| AdventureSteps.TreadGoes | src/sidra_ai/creation/adventure.py:384 | a creature walks where the ground is open, and along a wall by the half that is |
| AdventureSteps.BlowTaken | src/sidra_ai/creation/adventure.py:365-368 | what a blow does to hearts, mercy, charm, place and phase |
| AdventureSteps.RoamersStrike | src/sidra_ai/creation/adventure.py:369-397 | the roamers of a room together take a heart exactly when one is on a hero with no mercy left, and else touch nothing of it |
| AdventureSteps.GuardStrikes | src/sidra_ai/creation/adventure.py:404-441 | the guardian steps, its armour wears, and it strikes exactly when the hero is then within 24 with no mercy left, and else touches nothing of it |
| AdventureSteps.FrameStrikes | src/sidra_ai/creation/adventure.py:652-656 | a whole frame costs a heart exactly when a roamer is on the hero as the creatures find it, or the guardian comes within reach |
| AdventureSteps.ForestHolds | src/sidra_ai/creation/adventure.py:132-141 | what stands in every forest |
| AdventureSteps.PondHolds | src/sidra_ai/creation/adventure.py:130-131 | where the pond's water stands, exactly |
| AdventureSteps.CaveHolds | src/sidra_ai/creation/adventure.py:142-154 | what stands in every cave, the three marks in their order |
| AdventureSteps.TenRocks | src/sidra_ai/creation/adventure.py:142 | the ten rocks stand where they were drawn, but for what was put there by hand |
| AdventureSteps.AltarHolds | src/sidra_ai/creation/adventure.py:155-160 | what stands in every altar, the guardian's floor open throughout |
| AdventureSteps.RoundStarts | src/sidra_ai/creation/adventure.py:156-182 | what a round starts with |
| AdventureSteps.SpawnsAwayFromTheDoor | src/sidra_ai/creation/adventure.py:168-173 | where a roamer can spawn: open floor, not by the chest, three tiles off the left landing |
| AdventureSteps.SpawnsOutsideTheChase | src/sidra_ai/creation/adventure.py:168-173 | exactly the spawns in column 4 start within the chase radius of a hero that enters |
| AdventureSteps.SpawnsInColumnFour | src/sidra_ai/creation/adventure.py:168-173 | and there are such |
| AdventureTheorems.MissionSafety | src/sidra_ai/creation/adventure.py:177-441 | over every round: the key is earned, the lock is exact, a win took the key and six blows thirty turns apart, hearts stay within bounds and are lost sixty frames apart, the charm saves once |
| AdventureTheorems.GemEconomy | src/sidra_ai/creation/adventure.py:224-264 | over every round: gems paid are held or spent, n cuts pay at least 1+(n-1)/3, two hearts and one door at most are bought, cuts and grass left add up |
| AdventureTheorems.RoamersKeepToTheFloor | src/sidra_ai/creation/adventure.py:168-173 | over every round, no roamer's point is ever on a solid tile |
| AdventureTheorems.FrameCostsOneHeart | src/sidra_ai/creation/adventure.py:369-441 | a frame costs one heart at most, whoever is near, the guardian included |
| AdventureTheorems.WorstLuckIsExact | src/sidra_ai/creation/adventure.py:226-237 | with the worst luck a round pays exactly 1+(n-1)/3, so cutting every tuft pays five gems exactly when there were thirteen (`PaidTheFloor`) |
| AdventureFindings.SwingFells | src/sidra_ai/creation/adventure.py:271-274 | a swing fells exactly the living roamers in reach, and drops a key exactly when those were the cave's last |
| AdventureFindings.SpareKey | src/sidra_ai/creation/adventure.py:271-310 | with a key already held, a swing drops another exactly when the arm is free and the blade reaches every roamer still living in the cave, one at least |
| AdventureFindings.SpareKeyHappens | src/sidra_ai/creation/adventure.py:271-310 | a world in order where it does: the lock opened first, the key held, the roamer in reach |
| AdventureFindings.SwingCuts | src/sidra_ai/creation/adventure.py:214-237 | a free arm cuts exactly when the tile under the blade's tip is grass |
| AdventureFindings.FirstSwing | src/sidra_ai/creation/adventure.py:134-137 | how many tufts the first swing of a round cuts: one exactly when tile (2,4) was drawn as grass |
| AdventureFindings.FirstSwingCanMiss | src/sidra_ai/creation/adventure.py:134-137 | a waking on which it cuts and a waking on which it cuts nothing |
| AdventureFindings.BladeDrivesGuardIntoWall | src/sidra_ai/creation/adventure.py:278-284 | after a landed blow, in whatever direction, the guardian stands in something solid exactly when the point it was pushed to is solid; no other swing moves it |
| AdventureFindings.GuardianKeepsToTheFloor | src/sidra_ai/creation/adventure.py:278-284 | the guardian keeps to open floor through every round in which no blow does so |
| AdventureFindings.DrivenIntoTheWall | src/sidra_ai/creation/adventure.py:278-284 | a world in order where the next blow does |
| AdventureFindings.WinTakenBack | src/sidra_ai/creation/adventure.py:652-656 | a frame whose queued blow wins ends lost exactly when mercy has run out, one heart is left, no charm, and a living roamer is on the hero; otherwise it ends won |
| AdventureFindings.WinTakenBackHappens | src/sidra_ai/creation/adventure.py:652-656 | a world in order whose next frame wins and ends lost |
| AdventureGame.CarveInto | src/sidra_ai/creation/adventure.py:128-129 | the carving loop, over the spots drawn |
| AdventureGame.PondInto | src/sidra_ai/creation/adventure.py:130-131 | the pond's nested loops |
| AdventureGame.BuildRooms | src/sidra_ai/creation/adventure.py:132-157 | the rooms as built |
| AdventureGame.Game.constructor | src/sidra_ai/creation/adventure.py:113-115 | a page starts on its seeded order and a reset |
| AdventureGame.Game.Reset | src/sidra_ai/creation/adventure.py:178-182 | a reset is the waking world |
| AdventureGame.Game.Populate | src/sidra_ai/creation/adventure.py:156-167 | the maps, the guardian and the roamers of that world |
| AdventureGame.Game.Knock | src/sidra_ai/creation/adventure.py:300-310 | the knock's whole new state |
| AdventureGame.Game.StrikeAt | src/sidra_ai/creation/adventure.py:223-270 | the new state after the blade meets a tile |
| AdventureGame.Game.StrikeCreatures | src/sidra_ai/creation/adventure.py:271-294 | the loop over the roamers, and the guardian |
| AdventureGame.Game.Swing | src/sidra_ai/creation/adventure.py:210-294 | the swing's whole new state |
| AdventureGame.Game.Shove | src/sidra_ai/creation/adventure.py:332-337 | a shove, axis by axis |
| AdventureGame.Game.MoveHero | src/sidra_ai/creation/adventure.py:338-360 | the hero's move |
| AdventureGame.Game.CharmSave | src/sidra_ai/creation/adventure.py:365-368 | the charm's save |
| AdventureGame.Game.Hurt | src/sidra_ai/creation/adventure.py:384-397 | a blow taken |
| AdventureGame.Game.MoveRoamers | src/sidra_ai/creation/adventure.py:369-397 | the loop over the roamers |
| AdventureGame.Game.MoveGuard | src/sidra_ai/creation/adventure.py:404-441 | the guardian's turn |
| AdventureGame.Game.Advance | src/sidra_ai/creation/adventure.py:652-656 | the world's part of a frame |
| Excerpts.AsciiPeriodEndsSentence | src/sidra_ai/api/citations.py:118-152 | the loop decides whether a period ends a sentence |
| Excerpts.SentenceEndMeans | src/sidra_ai/api/citations.py:102-152 | what ends a sentence, told without the scan |
| Excerpts.CandidateStarts | src/sidra_ai/api/citations.py:155-191 | the loops compute the specified list |
| Excerpts.CandidatesAreExact | src/sidra_ai/api/citations.py:155-191 | the candidates are the head and then every opening, strictly increasing, until sixty-four |
| Excerpts.SentenceStartsAreClean | src/sidra_ai/api/citations.py:203-243 | a start given by a sentence end always opens cleanly |
| Excerpts.CleanMeans | src/sidra_ai/api/citations.py:203-241 | what opens cleanly, in the four cases of its documentation, told without the scan |
| Excerpts.CleanStartIsOpening | src/sidra_ai/api/citations.py:203-243 | a clean start is an opening exactly when it stands on a real character with something before it |
| Excerpts.CleanButNotOffered | src/sidra_ai/api/citations.py:273-295 | a text, longer than a window, where the advance meets a clean start that is no opening, and exactly when it moves there |
| ExcerptFindings.ACleanStartNeverOffered | src/sidra_ai/api/citations.py:273-295 | a document, a query and a tokenizer of words for which the code opens the window on such a start |
| Excerpts.AdvancePastAHalfSentence | src/sidra_ai/api/citations.py:253-295 | the start moves only to the least later clean place that keeps every matched term and fifty characters |
| Excerpts.EligibleMeans | src/sidra_ai/api/citations.py:286-295 | a start may be moved to exactly where it is clean, fifty characters are left and no matched term is lost |
| Excerpts.SelectExcerptSpan | src/sidra_ai/api/citations.py:57-99 | the start has the most matched terms, the latest such if any matched, else the head; then advanced if asked |
| Excerpts.BestIsUnique | src/sidra_ai/api/citations.py:81-96 | the rule names one start |
| Excerpts.AdvanceOnlyWhereTheScanCouldNot | src/sidra_ai/api/citations.py:273-281 | with a term matched, advancing moves only past the sixty-fourth opening or onto a blank |
| ExcerptEdges.CutToBudget | src/sidra_ai/api/citations.py:334-356 | the cut computes the specified body |
| ExcerptEdges.CitationExcerpt | src/sidra_ai/api/citations.py:298-357 | at most 200 characters, from a start chosen by the rule, with each clipped edge marked, or withheld |
| ExcerptEdges.ShownMeans | src/sidra_ai/api/citations.py:311-357 | withheld exactly when the guard refuses a window that holds something, and then nothing shown; otherwise a mark at each clipped edge, and guarded text whole if it fits |
| ExcerptEdges.CutsForAReason | src/sidra_ai/api/citations.py:349-356 | with no placeholder open a cut falls on the budget, or before a digit takes off just the number |
| ExcerptEdges.OpenMarkerIsDropped | src/sidra_ai/api/citations.py:337-342 | exactly an open placeholder is dropped, and with it the space before it, no more |
| ExcerptEdges.Body | src/sidra_ai/api/citations.py:334-356 | what is shown is a prefix of the guarded text within the budget |
| ExcerptEdges.DigitsAreNotSplit | src/sidra_ai/api/citations.py:346-356 | no digit is shown with the next one dropped, unless the whole body is one number, and then just when the budget splits it |
| ExcerptEdges.GroupsAreSplitAtTheBudget | src/sidra_ai/api/citations.py:346-356 | a grouped figure is split at its separator exactly when the budget falls there |
| ExcerptEdges.AFigureSplitAtItsComma | src/sidra_ai/api/citations.py:346-356 | a figure near the end of a window clipped at both ends is shown as its first digit |
| ExcerptEdges.AnExcerptEndsInAFigure | src/sidra_ai/api/citations.py:326-357 | and so is the whole excerpt: the document's 1,234 becomes a 1 and the mark |
| ExcerptFindings.ACitedFigureIsSplit | src/sidra_ai/api/citations.py:298-357 | a document and a query for which the code selects that window and shows 1,234 as a 1 |
| ExcerptEdges.PlaceholdersStayWhole | src/sidra_ai/api/citations.py:335-345 | a redaction placeholder is shown whole or not at all |
| PocketPage.NothingCloses | scripts/build_pocket_page.py:44-46 | after the rewriting no closing tag opens anywhere |
| PocketPage.StringRoundTrip | scripts/build_pocket_page.py:39-46 | decoding the rewritten text of any string gives the string back |
| PocketPage.ValueRoundTrip | scripts/build_pocket_page.py:39-46 | decoding the rewritten text of any value gives the value back |
| PocketPage.RendersExactlyOnce | scripts/build_pocket_page.py:41-46 | a page is rendered exactly when the placeholder stands in one place alone |
| PocketPage.PageCarriesTheCorpus | scripts/build_pocket_page.py:36-46 | between the template's halves the page holds a text that decodes to the whole corpus and holds no closing tag |
| PocketPage.PageClosesAsTheTemplate | scripts/build_pocket_page.py:44-46 | every closing tag of the page is the template's own |
| ScriptData.AfterIsTold | scripts/build_pocket_page.py:44-46 | what state an HTML tokenizer is in after any text that holds no end tag of the script, told from the text |
| ScriptData.PageEndsItsScript | scripts/build_pocket_page.py:44-46 | in a template whose script may close any tag but its own, no chunk ends the script early, and it ends at the template's end tag exactly when the text opens no script tag in a comment it leaves open |
| ScriptData.OtherTag | src/sidra_ai/api/pocket_template.html:213-233 | the end of another tag, as the template's script writes in its strings, is no end tag of the script |
| ScriptData.AChunkHidesTheEnd | scripts/build_pocket_page.py:44-46 | one chunk that does, in any such template with no `-->` after the corpus |
| ScriptData.OtherTagsDoNotHelp | src/sidra_ai/api/pocket_template.html:138-239 | among them one that writes `</mark>` there, as the template does |
| PocketPage.RowsAreTheChunks | scripts/build_pocket_page.py:39 | the encoded rows determine the chunks |
| PocketPage.PayloadIsTheCorpus | scripts/build_pocket_page.py:39-40 | the payload determines the label and the chunks |
| AuditSink.Components | src/sidra_ai/api/audit.py:151-157 | a path is refused exactly when it climbs out or names nothing; otherwise exactly its naming parts are kept |
| AuditSink.NamedInOrder | src/sidra_ai/api/audit.py:154 | they are kept in order and as often as they come |
| AuditSink.OpenChildDirectory | src/sidra_ai/api/audit.py:169-180 | one descriptor more on success, none otherwise; it is that of the component, opened in the parent, which is asked for before it is given up as missing |
| AuditSink.OpenRegularAppend | src/sidra_ai/api/audit.py:183-210 | whatever is refused, the walk leaves one new descriptor on success and none otherwise, closing none twice, but for a halt that is no `Exception` after the file was opened; on success every component was opened in the one before, the last a regular file made its owner's alone |
| AuditSink.WriteAll | src/sidra_ai/api/audit.py:261-269 | the loop ends, and appends the payload in order, whole exactly when nothing is raised |
| AuditSink.ApiAuditLog.Record | src/sidra_ai/api/audit.py:286-313 | every record is kept or counted as failed, the counters and the file agree with what happened, and no more descriptors are left than records were halted |
| AuditSink.ApiAuditLog.Snapshot | src/sidra_ai/api/audit.py:271-284 | the counters shown are those of the history |
| AuditSink.WholeRecordsExactly | src/sidra_ai/api/audit.py:261-313 | the file is the old content and whole records exactly when no failed record left a part behind |
| AuditSink.EveryRecordCounts | src/sidra_ai/api/audit.py:302-313 | kept, failed and otherwise raised are all the calls |
| FormatBytes.Format | src/sidra_ai/api/ui.py:420-443 | the loop and the promotion compute the specified label |
| FormatBytes.LabelIsNear | src/sidra_ai/api/ui.py:420-443 | the label is within five per cent |
| FormatBytes.LabelUsesItsUnit | src/sidra_ai/api/ui.py:434-441 | no label reads 1024 or more while a larger unit exists, and none less than one |
| FormatBytes.LabelIsMonotone | src/sidra_ai/api/ui.py:420-443 | a larger size never reads smaller |
| FormatBytes.LabelWritesDecimals | src/sidra_ai/api/ui.py:420-443 | when a decimal is written, and what is shown below a kilobyte and of no size |
| FormatBytes.TheCarry | src/sidra_ai/api/ui.py:434-441 | the two labels on either side of a carry |
| AnswerableJudge.Compare | scripts/check_answerable_regression.py:286-399 | the loops' verdict and lists, from which numbers rose, fell or may be compared |
| AnswerableJudge.MovedIsARatchet | scripts/check_answerable_regression.py:353-399 | a move gains somewhere and loses nowhere, and backwards is a regression |
| AnswerableJudge.ChainsAreBounded | scripts/check_answerable_regression.py:353-399 | no chain of moves comes back, and its length is bounded by the outcomes |
| AnswerableJudge.MovesCompose | scripts/check_answerable_regression.py:368-383 | two moves are one exactly when no guard's drops add up to a large one |
| AnswerableJudge.TwoMovesCanRegress | scripts/check_answerable_regression.py:368-383 | two moves that together regress |
| AnswerableJudge.ChangedSetBanksOnlyNew | scripts/check_answerable_regression.py:316-367 | over a changed question set only a new number counts |
| AnswerableJudge.ChangedDenominatorIsNotJudged | scripts/check_answerable_regression.py:333-367 | a count is judged neither way exactly when its own denominator changed |
| AnswerableJudge.NewlyMeasuredIsAGain | scripts/check_answerable_regression.py:363-364 | a count the old snapshot lacks is a gain |
| AnswerableJudge.GuardsHaveANoiseFloor | scripts/check_answerable_regression.py:368-383 | how far each guard may fall |
| IngestionJudge.HasDrifted | scripts/check_ingestion_regression.py:261-266 | the loop finds a moved head exactly when there is one |
| IngestionJudge.Compare | scripts/check_ingestion_regression.py:247-330 | the loops' verdict and lists |
| IngestionJudge.MovedIsAnOrder | scripts/check_ingestion_regression.py:288-330 | a move goes one way, and two are one exactly when their ends may be compared |
| IngestionJudge.ChainsAreBounded | scripts/check_ingestion_regression.py:288-330 | no chain of moves comes back, and its length is bounded |
| IngestionJudge.ChangedScopeBanksOnlyNew | scripts/check_ingestion_regression.py:250-301 | over another scope, other heads or other questions only a new number counts |
| IngestionJudge.GainsAndFalls | scripts/check_ingestion_regression.py:288-317 | what is a gain and what a fall |
| BossJudge.Compare | scripts/check_boss_questions.py:130-165 | the verdict, and exactly when there is none to give |
| BossJudge.MovedIsARatchet | scripts/check_boss_questions.py:150-165 | a move goes one way, and up |
| BossJudge.ChainsAreBounded | scripts/check_boss_questions.py:150-165 | chains of moves are bounded |
| Board.ReadItems | scripts/check_backlog_board.py:229-251 | the loop reads the specified items |
| Board.ReadIsLossless | scripts/check_backlog_board.py:229-251 | headings and bodies, in order, are the file's lines from the first heading on, numbered |
| Board.HeadingsHeadItems | scripts/check_backlog_board.py:237-250 | every item is headed by a heading, and no heading hides in a body |
| Board.ItemsKeepTheirSection | scripts/check_backlog_board.py:232-248 | each item keeps its line and the section its heading stands under |
| Board.SectionIsTheLast | scripts/check_backlog_board.py:234-236 | the section is the last one headed above |
| Board.RecordBlocks | scripts/check_backlog_board.py:272-286 | the loop cuts the specified blocks |
| Board.BlocksAreLossless | scripts/check_backlog_board.py:272-286 | the blocks are the body's tail from its first record on |
| Board.BlocksAreRecords | scripts/check_backlog_board.py:272-286 | each block opens with a record and holds no other |
| Board.CollisionSites | scripts/check_backlog_board.py:345-364 | the loop reports the specified repeats |
| Board.RepeatsAreAllReported | scripts/check_backlog_board.py:345-364 | a number heading k items is reported k-1 times, all on one side of the settled list |
| Board.SitesNameTheFirst | scripts/check_backlog_board.py:345-364 | every report names the first item |
| Board.SitesNameTheRepeat | scripts/check_backlog_board.py:345-364 | and the line of the one that repeats it |
| Board.MisplacedRecords | scripts/check_backlog_board.py:289-342 | a record is reported exactly when its stamp and a metric it quotes belong to another item |
| Board.FlatJoins | scripts/check_backlog_board.py:266-269 | an item is read as all of its lines, stripped, one to a line |
| Board.HomeIsTheLast | scripts/check_backlog_board.py:308-317 | a stamp and a metric belong to the last item that carries both, the metric anywhere in its block |
| Board.StraysMeans | scripts/check_backlog_board.py:319-342 | a record strays exactly when a metric quoted on any of its lines belongs, with its stamp, to another item |
| Board.StrandedClaims | scripts/check_backlog_board.py:175-194 | the claims whose promised metric a finished line declares, each with the line of the last and the first metric kept |
| Board.StrandedMeans | scripts/check_backlog_board.py:175-194 | a claim is stranded exactly when it is open and a finished heading declares a metric it promises |
| Board.StrandedUnacknowledged | scripts/check_backlog_board.py:197-219 | those in both boards and not acknowledged, each named with its line and first metric kept |
| Board.LeftBehindMeans | scripts/check_backlog_board.py:197-219 | exactly an acknowledgement in the body of the last item its key finds lets a twice stranded claim off |
| Board.UnbrokenJoins | scripts/check_backlog_board.py:210 | that body is all of its lines, as they are |
| Board.Check | scripts/check_backlog_board.py:385-420 | the check is silent exactly on a consistent board |
| Board.PrematureMeans | scripts/check_backlog_board.py:402-414 | a record is premature exactly under an item that is not finished |
| Decimals.DecimalIsInjective | src/sidra_ai/creation/artifact_paths.py:28 | distinct serials print differently |
| ArtifactPaths.NamesDiffer | src/sidra_ai/creation/artifact_paths.py:24-28 | distinct serials are distinct names |
| ArtifactPaths.UniquePath | src/sidra_ai/creation/artifact_paths.py:16-29 | the first free name in the order of the serials, found within one try more than there are files |
| Adapt.Page.AdaptSpeed | src/sidra_ai/creation/adapt.py:79-87 | the speed is eased exactly when there is a rung below the nearest and losses enough, and then by one rung |
| Adapt.Page.AdaptEasing | src/sidra_ai/creation/adapt.py:103-108 | the panel's own loop says yes on the very same condition |
| Adapt.Page.AdaptRecord | src/sidra_ai/creation/adapt.py:90-93 | a loss adds one, a win clears, and only a working store keeps it |
| Adapt.OwnRungIsNearest | src/sidra_ai/creation/adapt.py:83-87 | on a ladder of distinct rungs each is its own nearest, so easing moves one rung |
| Adapt.ThreeLossesEase | src/sidra_ai/creation/adapt.py:79-108 | above the first rung, with no hand-set speed, exactly three losses or more ease |
| Adapt.StreakIsTrailingLosses | src/sidra_ai/creation/adapt.py:74-93 | the streak is the run of losses the rounds end with |

## Left out

- Enemy wandering, the chase and the guardian's stride, wind-up and charge: where a creature heads is an input, so only what holds for every heading is stated.
- The random rejection loops of `carve` and `spawn`: their draws are given, so termination, which depends on the seed, is not claimed.
- `rand()` drawn from the shared stream: each draw of the adventure is an input; the generator itself is modelled apart.
- Rounding of doubles in the gate, in positions and in the shuffle's `krand()*(i+1)`.
- The tokenizer, the output guard's scan, the block-opener pattern and the board's patterns: parameters.
- JSON escapes outside the encoder's own (surrogate pairs, and numbers with sign, fraction or exponent) are refused by the decoder here.
- The non-dirfd audit fallback, file modes, and a close that fails: closing succeeds here, the kernel never hands out a descriptor twice, and a halt comes only as a call's answer.
- A second process that writes the audit log, or takes a file name, between two calls.
- Judges' printed reports, floors and the collection of snapshots; the text of the board's messages and its report order.
- api/service.py, routing, FastAPI, ingestion, page rendering and the probes: plumbing or unmodelled collaborators.
- AdventureGame.Game.Reset: the LCG state that `reset` rewinds is not part of the class.
