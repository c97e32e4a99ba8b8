# Marshall, verified

Marshall is an air traffic controller for a flight simulator: a deterministic engine that talks an
aeroplane down a radar approach, a director process that answers pilots through cached language-model
agents, and the tools that migrate its database, keep its issue tracker and judge its rehearsals.  This
project models the parts of it whose correctness is hardest to see from one body of code, and proves
what they promise over whole runs.

Run `dafny verify dfyconfig.toml`.

## What is modelled

**The radar-approach engine** (`Asr*.dfy`).  Positions are reals in the frame of the final approach
course: `along` the distance still to run, `cross` the distance off.  A heading is a direction vector,
so the 45-degree cut is `(-1, -sign)` and a join computed as an arctangent is the vector whose slope it
is.  The two tangents the engine compares against (17 and 1.5 degrees) are parameters held to the
accuracy the proofs need.  A run is a sequence of looks, and between two looks the aeroplane flies the
unrounded direction it was given for any distance up to a stated bound.
`AsrGuide` is one look; `AsrPattern` the downwind, base and cut; `AsrTurnIn` and `AsrTurnInExact` what
happens from the turn in onwards; `AsrReturn` what becomes of an aeroplane sent back out; `AsrArrival`
the whole approach, from anywhere to the missed approach point; `AsrAnyStart` the same with the missed
approach flown first where he is over the field; `AsrMissed` the missed approach and its latch;
`AsrSweep` the sweep's own flying loop and `AsrSweepArrives` that it arrives; `AsrDescent` the altitudes;
`AsrHeading` the numbers spoken.

**Seats, sessions and transcripts** (`Busy`, `StoreId`, `Seats`, `SeatRows`, `SeatPremises`,
`SeatWipes`, `SeatForgets`, `Messages`, `Transcript`, `Director`, with `Ids` and `Text`).  Requests are
threads taking atomic steps; a database transaction is one step.  `Busy` and `Director` are the classes,
written over their own dictionaries.  `Seats` is every interleaving of calls, rebuilds, failures and
evictions; `SeatRows` the message ids those leave behind; `SeatPremises` shows each premise is needed,
`SeatWipes` exactly when the locks may be wiped and `SeatForgets` exactly when rows may be deleted.
`Messages` is the advisory-lock discipline of the repository.  `Transcript` holds a conversation twice,
live and stored.

**The migration runner** (`Migrate`): discovery and order, one run alone, and any number of runs at
once, each crashing wherever it likes.

**Positional rewriting** (`Splice`, `Sectioned`, `IssueArchive`, `IssueFix`, `SeedFixes`, `SeedOnce`):
text edited by offsets found beforehand, from the bottom up, against a simultaneous rewrite; then the
result parsed again.

**Rehearsal checkers** (`Ladder`, `Stack`, `Spoken`): a greedy matcher, three checks of the holding
stack, and numbers spoken and heard back.  `Picks` is what it is to pick from a sequence, in order.

Lemmas that Dafny would try its automatic induction on say `{:induction false}`: the induction is the one
written in the body, or there is none.

## Where the code and its own words part

The code is followed each time.

- `has_room` and `in_position` say their answer does not change while the aeroplane flies what it is
  told (`src/marshall/atc/asr.py:347-364`).  That holds outside the turn-in distance.  Inside it the
  angle test of `in_position` can fail on the way on: `AsrTurnInExact.TurnedInAndSentBackOut` is a
  concrete aeroplane turned in and sent back out, and `AsrTurnInExact.TurnInIsFinalExactly` gives the
  exact condition, `|cross| <= 0.5` or `along^2 >= 12.5 |cross|`.  Turning in four miles out or more,
  or by way of the 45-degree cut, always meets it.  An aeroplane sent back out is not lost: each time
  round `along^2 / |cross|` has grown (`AsrReturn`), so it comes in all the same
  (`AsrArrival.ArrivesFromAnywhere`).
- The base and downwind joins are documented as limited to 45 degrees; the limit in
  `src/marshall/atc/geometry.py:57` is 90, so an arctangent is never capped, and none is here.  The base
  join is within 45 degrees exactly up to four and a half miles beyond the base line, the downwind join
  exactly from a mile and a half across the centreline to seven and a half miles out
  (`AsrPattern.JoinsWithin45Exactly`, with aeroplanes outside both in `AsrPattern.SteeperJoins`).
- `angle_diff` documents `(-180, 180]`; it computes `[-180, 180)`.
- The comment at `src/marshall/atc/asr.py:610-622` says a new heading must beat the old by a full step.
  The test is made after rounding, so it acts only when the last heading is not a multiple of five
  (`AsrHeading.MemoryActsOnlyOffTheFives`); over a run of vectors it never does
  (`AsrHeading.VectorsForgetTheLast`).  The joins and the roll-on reach `out` in whole degrees, and two
  of those a degree apart still flap (`AsrHeading.FlapsForEver`).
- `descend_to` can be above the height he should be at now inside the missed approach point
  (`AsrDescent.IssuedAboveInsideTheMap`); from that point outward it never is, on the gradient it never is
  anywhere, and on a table it is exactly when the table passes a boundary of the rounding between him and
  that point, above minimums and below platform (`AsrDescent.NeverAboveExactly`).
- `store_id` promises one conversation a seat.  Two sessions share one exactly when one is the other with
  a colon and something a seat's key can begin with (`StoreId.SessionsCollideExactly`; `hooks:tower` with
  no seat is `hooks` with `tower` in `StoreId.ColonCollides`).
- `clear` says the locks it drops guard agents that no longer exist.  A request still on its way to one has
  its lock dropped too: restarting the world is safe exactly when there is none
  (`SeatWipes.RestartIsSafeExactly`; the locks alone, `SeatWipes.WipeIsSafeExactly`).
- `session_lock` says different sessions hash to different keys.  Nothing ensures it; the proofs hold
  when they collide.
- Rows may be deleted while a seat is in use: safe exactly when there are none, or no agent counts them
  (`SeatForgets.ForgetIsSafeExactly`).
- `/atc/transmitted` calls itself idempotent.  Its effect is; its answer reports a change every time
  (`Transcript.RepeatReportsAChange`).
- `/atc/forget` on a whole session deletes only the cached seats' rows when any seat is cached
  (`Transcript.WholeSessionExactly`).  Its `LIKE` stays with the session's own rows exactly when the
  session's name has no `%`, `_` or backslash in it (`Transcript.OwnRowsExactly`; `a_c` takes `abc:tower`
  in `Transcript.UnderscoreReachesAnotherSession`), and even then reaches the sessions that begin with its
  name and a colon (`Transcript.RowsGoExactly`).
- `archive` says it appends in number order; it appends in file order, which is number order exactly when
  the closed entries already stand in it (`IssueArchive.NumberOrderExactly`,
  `IssueArchive.HigherNumberFirst`).
- Two migrations under one number are not refused; the order is independent of how the directory is listed
  exactly when there are none (`Migrate.SameHoweverListedExactly`).
- `seed_fixes` calls itself additive; a block with one coordinate is given a second of the one it has
  (`SeedOnce.NoKeyTwiceExactly`), and then reads as standing where the simulator puts it exactly when the
  one it had stands before `z` or already has that value (`SeedOnce.LandsExactly`; it stands after in
  `SeedOnce.HalfPlacedIsDoubled`).
- `_words` says a number is the same fact however either end wrote it.  "two thousand five hundred" is
  heard as 2000500 and 2500 as 2500 (`Spoken.ThousandsAndHundreds`); said as `_alt_words` says it, or
  written with commas, it is one fact (`Spoken.SpokenAndWrittenAgree`).
- `_words` says nothing turns on the ending of a word.  A plural in `s` is heard as its singular exactly
  when the singular does not end in `e` (`Spoken.EndingsExactly`): "mile" and "miles" are two words.

## Model

| member | source | states |
|---|---|---|
| `AsrPattern.RankIsLeg` | src/marshall/atc/asr.py:717-766 | The leg `guide` issues to an aircraft neither turned in nor told to go missed is decided by position alone: downwind, base or cut, at any altitude and whatever the latch says. |
| `AsrPattern.NeverBackToAnEarlierLeg` | src/marshall/atc/asr.py:385-452 | From any start, at any altitude, over any run of looks of up to two miles on none of which but the last he is turned in or told to go missed, the legs come in the order downwind, base, cut, turned in, and never back. |
| `AsrPattern.NeverCrossesOnBaseOrCut` | src/marshall/atc/asr.py:423-452 | Between two looks on base or on the cut he is on the same side of the centreline and off it. |
| `AsrPattern.TurnedInWithinBound` | src/marshall/atc/asr.py:717-766 | From anywhere, if never told to go missed, he is turned in within a number of looks bounded by the miles to cover: a lexicographic measure of leg and distance. |
| `AsrPattern.CutStep` | src/marshall/atc/asr.py:717-726 | A look on the 45-degree cut spends centreline and offset together, so a cut stays in position by both of the ways of being in it until he is inside the turn-in distance. |
| `AsrPattern.NotYetInPosition` | src/marshall/atc/asr.py:306-344 | Beyond the base line, an aircraft not in position is wide enough to fly base without crossing the centreline. |
| `AsrPattern.GateHasRoom` | src/marshall/atc/asr.py:268-277 | The entry gate has room by `has_room`, and a point of the base line has it exactly up to three and a half miles off. |
| `AsrPattern.GateIsTheCorner` | src/marshall/atc/asr.py:268-277 | The gate is the corner of the pattern: three miles out on the base line, where he needs no correction to fly the downwind to it or the base from it. |
| `AsrPattern.DownwindSide` | src/marshall/atc/asr.py:411-475 | Sent downwind near the centreline he is taken out on the side of the missed approach; further off, on the side he is already on, towards a band a mile and a half either way of three miles. |
| `AsrPattern.JoinsWithin45Exactly` | src/marshall/atc/asr.py:423-452 | The base join is within 45 degrees of the base exactly up to four and a half miles beyond its line, the downwind join of the downwind exactly from a mile and a half across the centreline to seven and a half miles out. |
| `AsrPattern.SteeperJoins` | src/marshall/atc/asr.py:423-452 | An aircraft wide enough is turned further than that onto either. |
| `AsrTurnIn.RollKeepsRoom` | src/marshall/atc/geometry.py:236-253 | Under either lookahead the roll-on spends distance to run, squared, no faster than it spends offset. |
| `AsrTurnIn.InboundStep` | src/marshall/atc/asr.py:661-726 | One look by an aircraft on the way in leaves it on the way in and closer. |
| `AsrTurnIn.NeverSentBackOut` | src/marshall/atc/asr.py:306-364 | Once turned in with room to roll out, no later look before the missed approach point puts him on the pattern again. |
| `AsrTurnIn.ReachesTheMissedApproachPoint` | src/marshall/atc/asr.py:676-679 | He reaches the missed approach point; it is never flown past between looks. |
| `AsrTurnIn.TheCutIsOnTheWayIn` | src/marshall/atc/asr.py:717-726 | Whoever flies the 45-degree cut has the room to roll out: the cut guarantees it. |
| `AsrTurnIn.FourMilesIsOnTheWayIn` | src/marshall/atc/asr.py:306-344 | Everything in position four miles out or more has the room to roll out. |
| `AsrTurnInExact.TurnInIsFinalExactly` | src/marshall/atc/asr.py:347-364 | The central claim, exactly: at a turn in, no complying run, however short its looks, is sent back out before it is established if and only if there is room to roll out. |
| `AsrTurnInExact.SpendIt` | src/marshall/atc/asr.py:717-726 | Without that room there is a complying run of small looks that is sent back out: the roll-on blend spends the centreline before the offset. |
| `AsrTurnInExact.TurnedInAndSentBackOut` | src/marshall/atc/asr.py:306-344 | A concrete aircraft turned in and, one look later, sent back out, at the published eleven-mile procedure. |
| `AsrReturn.RollGains` | src/marshall/atc/geometry.py:236-253 | A roll-on look inside four miles raises distance to run squared over offset by at least twice the square of the share of the lookahead flown. |
| `AsrReturn.OutboundKeepsRoom` | src/marshall/atc/asr.py:423-437 | Sent back out close in, whatever length the look, he loses none of that ratio on the way downwind. |
| `AsrReturn.RollBackStep` | src/marshall/atc/asr.py:717-726 | A turn in without room either settles on the look or leaves him with more room than he had by a share of the square of its length. |
| `AsrReturn.ComesBackIn` | src/marshall/atc/asr.py:306-364 | Turned in and sent out again and again, he has the room to roll out within a number of looks bounded by what is left to gain. |
| `AsrArrival.ArrivesFromAnywhere` | tools/asr_sweep.py:102-204 | The whole approach: from any position, heading and altitude an aircraft flying what it is told, and never told to go missed, is at the missed approach point within a number of looks bounded by where it starts and how short they are, however often it is sent back out. |
| `AsrArrival.ArrivesUnlessOverTheField` | tools/asr_sweep.py:102-204 | The same with nothing assumed but the start: from anywhere that is ahead of touchdown, more than two miles off the centreline or established, with a latch set only by being told, at any altitudes, he arrives within that number of looks. |
| `AsrArrival.SomeNumberIsEnough` | tools/asr_sweep.py:102-204 | There always is such a number. |
| `AsrAnyStart.ArrivesFromAnyStart` | tools/asr_sweep.py:102-204 | From any start at all, over the field or not and whatever the latch, with the latch handed back at every look, an aircraft that flies what it is told, climbs whenever it is told to go missed and gives none of that up before it is clear of the field with the latch dropped, is at the missed approach point within a number of looks fixed by where and how high it starts. |
| `AsrAnyStart.SomeNumberFromBox` | tools/asr_sweep.py:102-204 | There always is such a number. |
| `AsrAnyStart.CirclesForEver` | src/marshall/atc/asr.py:709-759 | Without the last of those it need not be: in and out of the fix radius, climbing when told to go missed and coming down in between, it circles for ever so many looks. |
| `AsrArrival.FirstTurnIn` | src/marshall/atc/asr.py:717-766 | The first turn in comes within the bound of the pattern and is the first. |
| `AsrMissed.LatchIsHistory` | tools/asr_sweep.py:135-147 | What the latch remembers: it is set exactly when some earlier look said missed and no look since has been at the climb altitude. |
| `AsrMissed.LatchedExactly` | src/marshall/atc/asr.py:709-715 | With the latch set he is on the missed approach exactly when not established, below the climb altitude and within the fix radius. |
| `AsrMissed.MissedAsPublished` | src/marshall/atc/asr.py:709-759 | Whatever brought him to it, the missed approach is straight in along the course below the altitude to turn, and exactly from there up the published heading. |
| `AsrMissed.TurnedOutMakesTrack` | src/marshall/atc/asr.py:753-759 | Through an unbroken stretch of looks on the published heading an aircraft that complies makes good that track, outward, by as far as it has flown. |
| `AsrMissed.AheadKeepsTheCentreline` | src/marshall/atc/asr.py:753-759 | Told to go straight ahead he keeps his distance off the centreline and goes on the way he was landing. |
| `AsrMissed.MissedIsNotInterrupted` | src/marshall/atc/asr.py:709-715 | After a look that says missed, every later look says missed or finds him established, until the climb altitude or the fix radius, on any path at all. |
| `AsrMissed.TurnsOutOnce` | src/marshall/atc/asr.py:753-759 | While altitude does not fall the procedure goes from runway course to published heading at most once and never back. |
| `AsrMissed.LatchIsReleased` | tools/asr_sweep.py:144-147 | At the climb altitude the look is not a missed approach and the latch drops. |
| `AsrMissed.WithoutTheLatchHeIsTurnedBack` | src/marshall/atc/asr.py:699-708 | A concrete climb-out that, without the latch, would be given an intercept back towards the field. |
| `AsrMissed.MapCannotBeJumped` | src/marshall/atc/asr.py:661-693 | On-course looks advancing by no more than the width of the point come in the order vector, final, map, and always reach map. |
| `AsrSweep.Fly` | tools/asr_sweep.py:102-204 | The flying loop: it arrives exactly when some look says map, at the first that does, with its latch, its first look on final and its reversal counters what the history says they are. |
| `AsrSweep.NoDitherExactly` | tools/asr_sweep.py:129-155 | Dithering is counted exactly when some two reversals are within thirty seconds of each other, and there is always one reversal that is not dither. |
| `AsrSweep.ReversalsCount` | tools/asr_sweep.py:148-155 | The turns counted are the looks that call the other turn from the last one called. |
| `AsrSweep.DithersCount` | tools/asr_sweep.py:148-155 | The dither counted is the looks that do so within six looks of another that did. |
| `AsrSweep.LastTurnIsTheLast` | tools/asr_sweep.py:148-155 | The last turn remembered is that of the last look that called one. |
| `AsrSweep.OneLookTowards` | tools/asr_sweep.py:189-196 | One look takes his altitude the way to what is ordered, by a thousand feet a minute up or seven hundred down, and never past it; ordered nothing he holds it. |
| `AsrSweep.ClimbsStraightTo` | tools/asr_sweep.py:192-196 | Ordered one altitude at every look he climbs to it at the fixed rate, stops there and never passes it. |
| `AsrSweep.MissedApproachEnds` | tools/asr_sweep.py:135-147 | Within the looks the climb takes, some look is not a missed approach or he is at the climb altitude with the latch dropped. |
| `AsrSweepArrives.FlightIsARun` | tools/asr_sweep.py:102-204 | Each flight of the loop is a run of looks flown as told, with its latch handed back and its climb made. |
| `AsrSweepArrives.EveryFlightArrives` | tools/asr_sweep.py:102-204 | So from every start, when it is not ordered down before it is clear, the loop calls the missed approach point within a number of looks fixed by where and how high it starts. |
| `AsrDescent.PlateSorts` | src/marshall/atc/asr.py:125-142 | Every printed table, in whatever order, reads as a strictly rising path with the same rows. |
| `AsrDescent.TableAlwaysReads` | src/marshall/atc/asr.py:125-142 | A rising table is read at every real range, on a segment that spans it. |
| `AsrDescent.HitsEveryRow` | src/marshall/atc/asr.py:125-142 | The table passes through every row it prints. |
| `AsrDescent.TableRises` | src/marshall/atc/asr.py:125-142 | Further out is never lower, across every row. |
| `AsrDescent.AdvisoryRises` | src/marshall/atc/asr.py:49-100 | The advisory altitude, by table or gradient and through half-even rounding, never falls with range and stays within minimums and platform. |
| `AsrDescent.GradientJoinsThePoints` | src/marshall/atc/asr.py:49-65 | The gradient is the straight line from minimums at the missed approach point to platform at the final approach point. |
| `AsrDescent.GradientFallsEvenly` | src/marshall/atc/asr.py:49-65 | Outside the missed approach point it falls as much over equal distances anywhere. |
| `AsrDescent.AdvisoryIsNearHeight` | src/marshall/atc/asr.py:68-100 | Short of the final approach point the advisory altitude is within fifty feet of the profile's height kept between minimums and platform; from there out it is platform. |
| `AsrDescent.AdvisoryIsNearTheLine` | src/marshall/atc/asr.py:68-100 | So without a glidepath it is within fifty feet of that line between the two points. |
| `AsrDescent.TableIsStraight` | src/marshall/atc/asr.py:125-142 | Between two rows the table's height is in proportion between theirs. |
| `AsrDescent.PrintedRowsAreTold` | src/marshall/atc/asr.py:68-100 | At every range a glidepath prints, short of the final approach point, he is told to be within fifty feet of the height printed, kept between minimums and platform. |
| `AsrDescent.IssuedIsAhead` | src/marshall/atc/asr.py:103-122 | From the missed approach point outward the altitude issued is never above the one he should be at, and a mile out it is the one for a mile further in. |
| `AsrDescent.NeverAboveExactly` | src/marshall/atc/asr.py:103-122 | At every range, exactly when the altitude issued is no higher than the one he should be at now: outside the missed approach point or the final approach point always; inside both when the profile passes no boundary of the rounding between him and the former above minimums and below platform, or, should the missed approach point be the further out, when at his range it is past the last boundary below platform. |
| `AsrDescent.GradientNeverAbove` | src/marshall/atc/asr.py:49-100 | On the gradient, with the missed approach point inside the final approach point, it is no higher at any range. |
| `AsrDescent.SteepInsideIsAbove` | src/marshall/atc/asr.py:103-122 | On a table that loses more than a hundred feet between the point and him, within minimums and platform, it always is. |
| `AsrHeading.DiffIsTheTurn` | src/marshall/atc/geometry.py:103-106 | `angle_diff` is the one turn in [-180, 180) from the one heading to the other. |
| `AsrHeading.TurnIsTheShortWay` | src/marshall/atc/geometry.py:147-158 | Turning the way called is never longer than any other turn to the same heading. |
| `AsrHeading.SpokenInRange` | src/marshall/atc/asr.py:570-626 | Every heading spoken is 1 to 360. |
| `AsrHeading.SpokenIsNearWanted` | src/marshall/atc/asr.py:606-626 | What is spoken is less than 7.5 degrees from what is wanted, half a degree on the approach; a five-degree vector repeats the last heading or moves at least five. |
| `AsrHeading.SpokenIsTheTrueHeading` | src/marshall/atc/asr.py:606-626 | What is spoken, with the variation put back, is less than 7.5 degrees from the true heading decided on, 2.5 with no last heading, half a degree on the approach. |
| `AsrHeading.FlownIsChartedPlusVariation` | src/marshall/atc/asr.py:558-568 | A charted heading is flown as that heading with the variation added, on the circle. |
| `AsrHeading.PublishedHeadingComesBack` | src/marshall/atc/asr.py:558-568 | A published heading put through `as_flown` and `out` comes back as charted for every variation exactly when it is a multiple of five or lies along the final approach course. |
| `AsrHeading.MemoryActsOnlyOffTheFives` | src/marshall/atc/asr.py:623-625 | The memory of the last heading changes a vector exactly when that heading is within a step and not itself a five. |
| `AsrHeading.VectorsForgetTheLast` | src/marshall/atc/asr.py:606-626 | Over any run of vectors, whatever is wanted, the memory never acts: what is spoken at each look is what is wanted there rounded to five degrees. |
| `AsrHeading.FlapsForEver` | src/marshall/atc/asr.py:606-626 | So headings wanted a degree apart, 92 and 93, taken in turn for any number of looks, are spoken five degrees apart at every one. |
| `Busy.SeatLocks.LockFor` | services/tools/busy.py:60-66 | The lock already made for the seat, or a new one no other seat has; every other seat keeps its own. |
| `Busy.SeatLocks.Clear` | services/tools/busy.py:68-77 | Forgets every lock and says how many there were. |
| `Busy.SecondCallerIsBusy` | services/app.py:362-375 | Two callers for one seat: the second is told busy; a caller for another seat is not. |
| `Busy.ClearedBetweenLetsTwoIn` | services/app.py:332-336 | Cleared between fetch and acquire, two callers for one seat both get in. |
| `StoreId.StoreIsInjective` | services/app.py:105-144 | For sessions without a colon two conversations share a store exactly when session and normalised seat are the same. |
| `StoreId.StationBeforeRole` | services/app.py:105-144 | The seat is the station's whatever the role, the role's without a station, and the session's own without either. |
| `StoreId.CaseDoesNotMatter` | services/app.py:105-144 | Capitals in role or station change no seat. |
| `StoreId.KeyOfAKey` | services/app.py:105-144 | A seat's key put through again is itself. |
| `Text.LowersLetters` | services/app.py:143-144 | Lowering case makes each capital its own small letter and leaves every other character as it is. |
| `Text.StripTakesOnlySpace` | services/app.py:143-144 | Stripping takes white space off both ends and leaves none at either. |
| `StoreId.SessionsCollideExactly` | services/app.py:105-144 | Two different sessions share a conversation, for some seats of theirs, exactly when one is the other with a colon and something a seat's key can begin with: no capital, no space, no white space first. |
| `Seats.NoAgentTakesTwoCalls` | services/app.py:340-420 | In every interleaving of any number of calls, rebuilds, failures and evictions no agent has two calls in flight, when locks are wiped only with nobody past `lock_for`. |
| `Seats.HeldByExactlyOne` | services/tools/busy.py:60-66 | A lock is held exactly when one request is between acquire and release on it, on every path out. |
| `SeatWipes.NoTwoCallsSafely` | services/app.py:340-420 | The same of every interleaving in which the locks are wiped, with requests in or not, only when none past `lock_for` has yet to take its agent or has the one cached for its seat. |
| `SeatWipes.WipeIsSafeExactly` | services/app.py:313-336 | After any such history one more wipe is safe, whatever follows, exactly under that condition: any request that breaks it can be run into a second call of one agent. |
| `SeatWipes.RestartIsSafeExactly` | services/app.py:313-336 | Dropping every agent and then every lock is safe, whatever follows, exactly when no request past `lock_for` has yet to take an agent or to put its own in the cache; requests already talking to one do not matter. |
| `SeatWipes.QuietIsSafe` | services/app.py:313-336 | Wiping only with nobody past `lock_for` is such a history. |
| `Seats.BusyOnlyForYourOwnSeat` | services/app.py:362-375 | A request is answered busy exactly when another with the same full key is inside. |
| `Seats.AnsweredBy` | services/app.py:376-420 | A request inside is answered with what was said exactly when its call returned, and failed exactly when that did not, its row was refused or no agent could be built. |
| `Seats.LeavesWithItsAnswer` | services/app.py:376-420 | The answer a request was given is the one it ends with, once it lets go of its seat. |
| `SeatRows.EveryConversationIsContiguous` | services/app.py:105-144 | With distinct stores for live seats, and rows deleted only where there are none or no agent counts them, every conversation holds ids 0..n-1 and no insert is refused, in every interleaving. |
| `SeatForgets.ForgetIsSafeExactly` | services/app.py:540-579 | After any such run one more deletion is safe, however carefully the run goes on, exactly under that condition: any agent cached for a seat that stores there, or held by a request, can be brought to write a conversation that does not start at 0. |
| `SeatPremises.WipedLocksLetTwoIn` | services/app.py:313-336 | For any seat, locks wiped between fetch and acquire let two calls into one agent. |
| `SeatPremises.OneStoreForTwoSeatsCollides` | services/app.py:105-144 | Any two seats sharing a store, answering at once, have an insert refused. |
| `SeatPremises.ForgettingMidCallLeavesAHole` | services/app.py:540-579 | For any seat, rows deleted while it answers leave a conversation starting at id 1. |
| `Ids.AllContiguousGrows` | services/strands_pg/session.py:189-210 | Storing the next id of one conversation leaves every conversation contiguous. |
| `Messages.EverySessionIsContiguous` | services/strands_pg/session.py:35-79 | Under the advisory lock, for every hash of the session name, any interleaving of agent runs gives each session ids 0..n-1 and no unique violation. |
| `Messages.OneRunPerHash` | services/strands_pg/session.py:35-79 | No two runs whose sessions hash alike are inside at once. |
| `Messages.EndedRunsHoldNothing` | services/strands_pg/session.py:66-79 | Every lock held is held by a run still inside, for a session with that hash; a run that ended or crashed holds none. |
| `Messages.ARunStoresItsMessages` | services/strands_pg/session.py:35-79 | A run whose lock is free, left to itself, takes it, adds its messages after those its session has, and gives it back, however it ends. |
| `Messages.RacedRunsCollide` | services/strands_pg/agentmail.py:399-405 | Without the lock any session can lose an insert to the unique constraint. |
| `Transcript.TheTwoCopiesAgree` | services/app.py:340-420 | Over any sequence of calls, rebuilds, corrections and forgets, a live agent remembers the end of what is stored, block for block: as stored or stripped of its situation, a pilot's call at most once, anything else word for word; and its last reply is the last one stored. |
| `Transcript.ScrubAgrees` | src/marshall/atc/agent/context.py:154-190 | Scrubbing only strips: whatever was the end of the stored talk, each block as stored or stripped some number of times, still is. |
| `Transcript.OnlyTheNewestKeepsItsSituation` | src/marshall/atc/agent/context.py:154-190 | After a call every pilot's call in the live talk, but for the newest turn to carry a situation, is exactly the stored one stripped of it. |
| `Transcript.ScrubLeavesDialogue` | src/marshall/atc/agent/context.py:154-190 | Scrubbing leaves every turn in its place, and word for word but for situations older than the newest. |
| `Transcript.PilotsWordsAreKept` | src/marshall/atc/agent/context.py:132-147 | What is kept of a pilot's call is the call itself, and keeping it again changes nothing. |
| `Transcript.EventsWordsAreKept` | src/marshall/atc/agent/context.py:86-147 | What is kept of an event is all of it but its first radar block, up to the call it asks for or the end. |
| `Transcript.CallForgetsNoDialogue` | services/app.py:376-418 | A call by a cached agent keeps every turn of dialogue, stores every turn added, and touches no other seat. |
| `Transcript.CachedKeepsTheEnd` | services/app.py:376-418 | A call by a cached agent leaves it everything it had and what the call added, but for as many of the oldest turns as the window drops. |
| `Transcript.RebuiltRemembersTheStored` | services/app.py:400-418 | An agent rebuilt for a changed prompt, or made where there was none, remembers the stored talk and what the call adds, plain turns word for word and in place, but for as many of the oldest as the restoring and the window drop. |
| `Transcript.RestartLosesNoDialogue` | services/app.py:407-415 | With nothing dropped in restoring, a restart between two calls leaves an agent that remembers every stored turn, and no fewer than the one it replaces. |
| `Transcript.LastRepliesLineUp` | services/app.py:468-488 | The last reply in the live copy and the last in the stored one are the same turn. |
| `Transcript.CorrectionChangesOneTurn` | services/app.py:465-496 | A correction changes exactly the last reply in each copy of one seat, touches no other seat, and repeating it changes nothing more. |
| `Transcript.RepeatReportsAChange` | services/app.py:474-480 | A correction sent again is answered as a change again, because the stored text carries a marker the sent text does not. |
| `Transcript.CorrectionIsAnswered` | services/app.py:457-475 | Refused exactly without a session or text; unknown exactly without a cached agent; nothing said exactly when no turn of its is a reply; and unless corrected, nothing changes. |
| `Transcript.CorrectedWhenOthers` | services/app.py:468-475 | Otherwise the last reply decides, by its words but for white space at the ends: the same are left, others are corrected. |
| `Transcript.HalfCorrected` | services/app.py:477-495 | When the store fails halfway the rows are untouched, and the copies agree exactly when what went on the air is what was stored. |
| `Transcript.ForgetExactly` | services/app.py:538-574 | Forgetting leaves the copies agreeing exactly when every seat kept keeps its rows or had nothing in memory. |
| `Transcript.ForgetLeavesOtherAgents` | services/app.py:538-551 | Forgetting drops every cached agent of the session, station and role named and leaves every other as it was. |
| `Transcript.ForgetLeavesOtherRows` | services/app.py:553-570 | The rows that go are those of the cached seats named; of the seat named, if none is cached; of the whole session, if none is named; and every other stays as it was. |
| `Transcript.OtherSeatsKeepTheirRows` | services/app.py:538-570 | So a seat not named keeps its rows, when one named is cached and none of those shares its store. |
| `Transcript.ForgottenSeatStartsAfresh` | services/app.py:502-579 | A seat forgotten by name has neither copy left, and its next call starts from nothing. |
| `Transcript.WholeSessionExactly` | services/app.py:553-570 | Forgetting a session deletes every conversation of it exactly when no seat of it is cached or every stored one belongs to a cached seat. |
| `Transcript.OwnRowsExactly` | services/app.py:566-570 | Forgetting a session deletes nothing but its own rows exactly when its name has no percent sign, underscore or backslash. |
| `Transcript.RowsGoExactly` | services/app.py:566-570 | For such a name, exactly which other sessions lose rows: those whose name begins with it and a colon, and those that it extends by the start of a seat's key. |
| `Director.Director.Atc` | services/app.py:376-418 | A completed call, on both copies, is the specified one for a cached, stale or missing agent. |
| `Director.Director.Transmitted` | services/app.py:424-496 | The endpoint's answer and both copies are as specified, on every early return and on a store failure. |
| `Director.Director.Evict` | services/app.py:538-551 | The loop drops every cached agent the request names and no other, counts them and collects their stores. |
| `Director.Director.Forget` | services/app.py:502-579 | Both copies after a forget are as specified, store up or down. |
| `Migrate.DiscoverSortsMigrations` | services/strands_pg/migrate.py:45-48 | Discovery keeps exactly the files whose names fit, in numeric order. |
| `Migrate.FitsExactly` | services/strands_pg/migrate.py:28-48 | A name fits exactly when it is digits, an underscore, something on one line and `.sql`. |
| `Migrate.NumberIsOfTheDigits` | services/strands_pg/migrate.py:45-48 | Its number is the one those digits write. |
| `Migrate.FirstDigitDecides` | services/strands_pg/migrate.py:45-48 | Of equally many digits the first that differ say which number is more. |
| `Migrate.ValueBound` | services/strands_pg/migrate.py:45-48 | So many digits write a number below that power of ten. |
| `Migrate.LeadingZeros` | services/strands_pg/migrate.py:45-48 | Leading zeros do not count. |
| `Migrate.PendingExactly` | services/strands_pg/migrate.py:62-66 | What is pending is exactly the files not already applied, in order. |
| `Migrate.ListingOrderDoesNotMatter` | services/strands_pg/migrate.py:45-48 | With distinct numbers the order does not depend on how the directory was listed. |
| `Migrate.SameHoweverListedExactly` | services/strands_pg/migrate.py:45-48 | Of any set of files, discovery gives one order however the directory is listed exactly when no two have one number. |
| `Migrate.SortIsStable` | services/strands_pg/migrate.py:45-48 | Files under one number stay in the order of the listing. |
| `Migrate.Database.Apply` | services/strands_pg/migrate.py:51-79 | One run alone applies and records the pending files in order up to the first that fails, and returns those. |
| `Migrate.AlwaysAPrefix` | services/strands_pg/migrate.py:51-79 | With any number of concurrent runs crashing anywhere, what is applied is a prefix of numeric order, none twice, and the table records exactly that. |
| `Migrate.FinishedMeansAll` | services/strands_pg/migrate.py:65-79 | A run that finishes leaves every file applied, by whichever run. |
| `Migrate.AppliedByExactlyOneRun` | services/strands_pg/migrate.py:65-79 | Every applied file is reported by exactly one run. |
| `Migrate.OneMoreRunFinishes` | services/strands_pg/migrate.py:51-79 | Whatever has gone before and wherever it crashed, one more run left to itself finishes, applying and reporting exactly what was left, in order. |
| `Splice.BottomUp` | tools/issue_sync.py:609-611 | Splicing the last edit first, by offsets worked out before any, is making every edit at once. |
| `Splice.TopDownInPlace` | tools/seed_fixes.py:146-148 | From the top down is making every edit at once when every edit but the last keeps its length. |
| `Splice.TopDownMisses` | tools/seed_fixes.py:146-148 | After an edit that changes the length, one that takes something out leaves the first or last of it standing, in every text where that is found nowhere else. |
| `IssueArchive.Entries` | tools/issue_sync.py:227-240 | Every entry found runs from its own heading to the next: together they are the issues, end to end. |
| `Sectioned.PartsMakeTheText` | tools/issue_sync.py:227-240 | A text is what stands before its first heading and then its sections, end to end. |
| `IssueArchive.TakeOut` | tools/issue_sync.py:262-266 | The loop takes each closed entry out from the bottom up: what is left is the simultaneous cut, and what is moved is each entry's own text. |
| `IssueArchive.PutAway` | tools/issue_sync.py:267-268 | Taken in reverse, the moved entries are filed in the order they stood. |
| `IssueArchive.Tracker.Archive` | tools/issue_sync.py:243-273 | Both files afterwards are the parsed entries split by whether they are closed. |
| `IssueArchive.CutsKeep` | tools/issue_sync.py:257-266 | Cutting the closed entries out is keeping the others. |
| `IssueArchive.StrippingKeepsIssues` | tools/issue_sync.py:265-270 | Stripping a document takes only trailing white space from its entries. |
| `IssueArchive.ArchivingConservesIssues` | tools/issue_sync.py:243-273 | Parsed again, up to trailing white space, the live file holds the open entries and the archive what it had followed by the closed ones, both in order. |
| `IssueArchive.EveryIssueInExactlyOneFile` | tools/issue_sync.py:243-273 | Together the two files hold exactly the entries they held. |
| `IssueArchive.ClosedGoOpenStay` | tools/issue_sync.py:257-261 | The live file is left with exactly the entries that are not closed, and the archive gains exactly those that are. |
| `IssueArchive.RStripTakesTheEnd` | tools/issue_sync.py:265-270 | Stripping a document takes the blank lines off its end and the white space off the last line left. |
| `IssueArchive.NumberOrderExactly` | tools/issue_sync.py:267-268 | What the archive gains is in number order exactly when no closed entry stands after one of a higher number in the live file. |
| `IssueArchive.HigherNumberFirst` | tools/issue_sync.py:267-268 | Two closed entries standing the other way about are filed the other way about. |
| `IssueArchive.SecondRunMovesNothing` | tools/issue_sync.py:257-261 | Run again it moves nothing and writes neither file. |
| `IssueFix.WriteBack` | tools/issue_sync.py:603-613 | Rewriting status words last first is the simultaneous rewrite. |
| `IssueFix.FixingTouchesOnlyStatuses` | tools/issue_sync.py:597-613 | Parsed again the file has the same issues; each wanted one with a status says closed and no other word of any line has changed. |
| `IssueFix.FixingCloses` | tools/issue_sync.py:597-613 | Of an issue wanted, the first status line now says CLOSED and all else is as it was; one not wanted, or with none, is as it was. |
| `IssueFix.FixingTwiceChangesNothing` | tools/issue_sync.py:597-613 | Run again with the same wants it writes what is there. |
| `SeedFixes.Blocks` | tools/seed_fixes.py:49-71 | The two nested loops find every point with its keys, each key by the line that last set it, each block up to the next header. |
| `SeedFixes.MarksLocate` | tools/seed_fixes.py:49-71 | Each block found is a section of the file with its own keys, and the sections run end to end. |
| `SeedFixes.SeedBlock` | tools/seed_fixes.py:149-168 | One block edited in place is that block given its position, or fails exactly when it has coordinates that do not read as numbers, or not both and nowhere to put them. |
| `SeedFixes.SeedInPlace` | tools/seed_fixes.py:146-168 | The in-place loop equals the simultaneous edit, and fails exactly when some point with a position has coordinates that do not read as numbers, or lacks one of them and has no `z`. |
| `SeedOnce.ReparsesToTheSameBlocks` | tools/seed_fixes.py:146-168 | Whatever the file, it parses to the same sections, every other key and line as it was and in order, each point asked for with both coordinates; and a point reads as standing where the simulator puts it exactly when it had both, or each it had stands before its `z` or already has that value. |
| `SeedOnce.LandsExactly` | tools/seed_fixes.py:155-168 | The same condition for one block. |
| `SeedOnce.NoKeyTwiceExactly` | tools/seed_fixes.py:155-168 | In a file whose blocks set no key twice, none is set twice afterwards exactly when every block given a position had both coordinates or neither. |
| `SeedOnce.Wanted` | tools/seed_fixes.py:113-120 | The loop asks for exactly the points with a name, an x and a z that lack coordinates, or all of those when forced. |
| `SeedOnce.WantsExactly` | tools/seed_fixes.py:113-120 | A block is asked about exactly when it is a point with lines that set a name, an x and a z, and not lines for both coordinates unless forced. |
| `SeedOnce.LastLineIsRead` | tools/seed_fixes.py:49-71 | A key is there exactly when some line of the block sets it, and is read from the last that does. |
| `SeedOnce.SecondRunHasNothingToSeed` | tools/seed_fixes.py:113-128 | A second run asks for just what the simulator did not answer. |
| `Ladder.Climb` | tools/ghost_flight.py:1346-1370 | The greedy loop gets to the end exactly when some non-decreasing assignment of rungs exists, and stops at a handoff that leaves none. |
| `Ladder.TheLadderRanForwards` | tools/ghost_flight.py:1332-1377 | The check says forwards exactly when the handoffs can be given rungs that never go back, with the seats that never fired and the repeats of the earliest rungs. |
| `Ladder.OnLadderExactly` | tools/ghost_flight.py:1346-1349 | The handoffs judged are exactly those to stations of the ladder, in the order they were made. |
| `Ladder.MissingExactly` | tools/ghost_flight.py:1371-1371 | The stations said never to have fired are exactly the rungs no handoff named, in ladder order. |
| `Ladder.RepeatsCount` | tools/ghost_flight.py:1369-1370 | The repeats are the handoffs given the rung of the one before. |
| `Ladder.FirstIsEarliest` | tools/ghost_flight.py:1364-1370 | Taking the first rung that fits keeps every rung as early as any assignment has it. |
| `Ladder.ForwardsExactly` | tools/ghost_flight.py:1346-1370 | Handoffs ran forwards exactly when, the same man twice running counted once, they are found in order down the ladder with no rung used twice. |
| `Ladder.RevisitsALaterRung` | tools/ghost_flight.py:1293-1313 | In any handoffs that ran forwards, a station gone back to after another is on a later rung than that one. |
| `Ladder.BackIsOnlyForwardsOnALaterRung` | tools/ghost_flight.py:1293-1313 | The three handoffs to a station, another and the first again run forwards exactly when the ladder names them in that order. |
| `Stack.AHoleIsExact` | tools/stack_rehearsal.py:198-228 | For a strictly increasing stack the check is silent exactly when fewer than two levels are held, or every level below the lowest holder belongs to somebody and none between the holders is missing. |
| `Stack.AHoleSays` | tools/stack_rehearsal.py:198-228 | The complaint carries the levels held; with them either the stack levels beneath the lowest holder that belong to nobody, or, there being none, the first so many of the stack from the lowest holder up. |
| `Stack.LowestAndHighest` | tools/stack_rehearsal.py:211-213 | The first and last levels used are held, and every holder is between them. |
| `Stack.TwoAtOneLevel` | tools/stack_rehearsal.py:155-185 | The dictionary and the loop over its sorted levels report each level held twice, lowest first. |
| `Stack.ClashesSay` | tools/stack_rehearsal.py:165-185 | There is one complaint for each level that two are given, lowest first, and it carries everybody given it. |
| `Stack.JudgeSays` | tools/stack_rehearsal.py:176-184 | It is that two hold there; or, failing that, that a holder was put on the level of one leaving; or neither. |
| `Stack.WhoExactly` | tools/stack_rehearsal.py:155-195 | Those it carries are everybody it is true of, once each and in board order. |
| `Stack.TwoAtOneLevelIsExact` | tools/stack_rehearsal.py:155-185 | Silent exactly when assigned levels are pairwise distinct. |
| `Stack.TwoInTheLetdownIsExact` | tools/stack_rehearsal.py:188-195 | Silent exactly when no two are in the letdown and no two are cleared. |
| `Stack.TwoInTheLetdownSays` | tools/stack_rehearsal.py:188-195 | It names everybody in the letdown when there are two, and failing that everybody cleared. |
| `Spoken.Words` | tools/ladder_rehearsal.py:766-790 | The loop over tokens, with its run of digits, collects what the specification says is heard. |
| `Spoken.DigitsAreDigits` | tools/ladder_rehearsal.py:760-763 | A word adds only digits to a number, and a word that is all digits adds itself. |
| `Spoken.EndingsExactly` | tools/ladder_rehearsal.py:784-787 | Of a word with no ending to lose, `ed` and `es` change nothing, and `s` changes nothing exactly when it does not end in `e`. |
| `Spoken.ScalesMultiply` | tools/ladder_rehearsal.py:763-783 | Any number said with "hundred" or "thousand" after it is heard as the digits of the product. |
| `Spoken.ThousandsAndHundreds` | tools/ladder_rehearsal.py:766-790 | Thousands and hundreds said together are run together and not added: they are never heard as the number meant. |
| `Spoken.AltitudeComesBack` | tools/ladder_rehearsal.py:609-617 | Every altitude said aloud is heard as exactly its own digits. |
| `Spoken.RangeComesBack` | src/marshall/atc/asr.py:798-810 | Every range said aloud is heard as the digits of its whole miles, off the list of words or beyond it. |
| `Spoken.SpokenAndWrittenAgree` | tools/ladder_rehearsal.py:766-790 | A number spoken and the same number written with commas are one fact. |
| `Spoken.CommasByThrees` | tools/ladder_rehearsal.py:766-775 | The written form has a comma before each three digits from the end and none in front. |
| `Spoken.NeverANumeral` | src/marshall/atc/asr.py:798-810 | Nothing spoken contains a digit. |
| `Rounding.RoundMonotone` | src/marshall/atc/asr.py:145-157 | Python's half-even rounding never reverses an order. |

## Left out

- AsrTurnIn.NeverSentBackOut: looks are of at most two miles and no longer than the missed approach point is wide. The sweep's are under 0.7 miles at 450 knots.
- AsrAnyStart.ArrivesFromAnyStart: that he does not come down before he is clear is a premise, because `safe_alt` is not part of this model.
- AsrPattern.TurnedInWithinBound: the aircraft turns onto a heading at once and flies it unrounded; turn rate, wind, the five-degree rounding of the heading flown and the sloppy and deaf pilots of the sweep are not in these runs.
- AsrSweep.Fly: the altitude ordered outside the missed approach, the way to turn and the distance flown are inputs, because `safe_alt` and the speed model are not part of this model.
- `safe_alt`, `descent.plan` and the minimum vectoring altitudes: they ask a terrain grid that is data.
- Floating point and real trigonometry: reals and direction vectors stand for them.
- Transcript.TheTwoCopiesAgree: the sliding window is any number of turns dropped from the front, and restoring a session any number from its front, because the library that decides is not part of this repository; its rewriting of tool results is not modelled.
- Transcript.TheTwoCopiesAgree: a forget is required to reach every cached seat whose rows it deletes; Transcript.ForgetExactly says exactly what happens otherwise.
- Director.Director.Forget: the fields of a request come already stripped, and its role in lower case; so do those of Director.Director.Transmitted.
- Director.Director.Atc: one call at a time; what overlapping calls do is in Seats and SeatRows.
- StoreId.StoreIsInjective: lower-casing and stripping are ASCII.
- Messages.EverySessionIsContiguous: the agent id is fixed, as the director fixes it; only the message ids of a row are kept here.
- Migrate.DiscoverSortsMigrations: digits are ASCII and a file name has no newline in it.
- Migrate.Database.Apply: what a file's SQL does is only that it was done, or that it failed.
- IssueArchive.Entries: works on lines whose kind is given; the regular expressions that recognise a heading or a status are not modelled.
- SeedFixes.Blocks: works on lines whose kind is given, for the same reason, and with it whether what stands after an equals sign is a number; positions arrive already written as text.
- IssueFix.WriteBack: the numbers wanted are an input; the drift report that computes them is not modelled.
- Spoken.Words: text is ASCII.
- `_freq_words`, `forgotten`, `right_fields_numbers` and the other rehearsal checks would add only easy members.
- Radio, speech, the language model, DCS-gRPC, FastAPI routing and the wording of complaints.
- The separation engine, the handoff table, route following and the callsign parser.
