# Project Manhattan simulation core, in Dafny

A verified model of the simulation core of *Project Manhattan*, a turn-based
management game set in 1939–1946. The core is made of three state machines
driven by one day clock:

- **Time system** (`time_system.dfy`, module `TimeSystem`)
  - `DateModel` is a validated calendar date between 1 January 1939 and
    31 December 1946. It uses the fixed leap rule `year % 4 == 0`.
  - `TimeDataModel` is the day clock. It holds the date, a game-day counter
    bounded by 1826 and a weekday cycle, which starts on a Thursday.
  - The clock keeps a registry of weakly held day observers. Each pass over
    the registry notifies the live ones and erases the dead ones.
- **Economy** (`resources.dfy`, module `Resources`)
  - `ResourcesManager` holds money, uranium, plutonium, four personnel pools
    (workers, scientists, engineers, army) and two clamped facility stats
    (morale, security).
  - Its hire, fire, set-total, add and spend commands are guarded.
  - Its daily upkeep handler is subscribed to the clock.
- **Research graph** (`research.dfy`, module `Research`)
  - `ResearchManager` holds a catalogue of technologies keyed by id. Each
    technology has a prerequisite list and a state: Locked, Available,
    InProgress or Completed.
  - There is one active-research slot.
  - An availability pass unlocks technologies whose prerequisites are done.
  - The start command checks the economy and charges it.
  - A day handler advances the active technology, then completes it and
    notifies listeners.
- **Composition** (`simulation.dfy`, module `Simulation`)
  - Objects are built in the program's order: clock, economy, research. A
    day tick therefore runs the upkeep before the research tick.
  - `NextTenDays` is the ten-day advance.
  - Scenario methods replay the repository's unit tests on the model.
- `wrappers.dfy` (module `Wrappers`) holds `Option`, `Outcome` and `Result`.

How each part is modelled:

- The objects that update their fields in place are classes: `DateModel`,
  `TimeDataModel`, `ResourcesManager` and `ResearchManager`.
- Each class method is tied by its `ensures` to a pure specification function
  on values:
  - `NextDate`, `Step` and `Advance` for the clock;
  - `Live` for the observer pass;
  - `Upkeep` and `UpkeepDays` for the economy;
  - `Availability`, `Catalogue`, `Start`, `Tick` and `Ticks` for research.
- Lemmas prove the source's promises about those functions.
- Exceptions become `Outcome`/`Result` values, one `RangeError` per message.
- Observer liveness is a parameter: the set of handles still alive.
- A listener callback is an event appended to a log.

The four copy-pasted hire/fire/set-total families of the economy are
modelled as one method per operation, parametrised by `Category`.

Where the documented design and the code differ, the model follows the code:

- **`DateModel::nextDay` is not atomic.** When it raises, the fields already
  hold 1 January 1947. `TimeDataModel::nextDay` has the same trait: when it
  raises for the game-day bound, the weekday and the counter are already
  incremented (`TimeSystem.DateModel.NextDay`, `TimeSystem.Step`).
- **A second start overwrites the slot.** Starting a second technology while
  one is running is accepted: the slot moves to the new technology and the
  old one stays InProgress with nothing to advance it
  (`Research.SecondStartOverwritesSlot`). It is not rejected.
- **Observers are notified in registration order.** The economy is notified
  before research.
- **The test `CannotStartResearchWithoutMoney` fails on scientists.** Its
  second economy has 10000 money, enough for the 1000 cost, so the start
  fails for want of working scientists alone
  (`Simulation.CannotStartWithoutScientists`).
- **The economy tests' fixture writes have no effect.** The fixture assigns
  new initial money, morale and security only after the manager has copied
  the configuration, so the scenarios start from the defaults (10000, 60, 40).

## Model

| member | source | states |
|---|---|---|
| TimeSystem.DayOfWeek.Index | src/Core/header/TimeSystem.hpp:19-28 | every weekday's enumerator value lies in 0..6 |
| TimeSystem.DayOfWeekAt | src/Core/src/TimeSystem.cpp:119-120 | the cast back from a value below 7 yields the weekday with that value |
| TimeSystem.DayOfWeekRoundTrip | src/Core/header/TimeSystem.hpp:19-28 | casting a weekday's value back gives the weekday, so the seven values are distinct |
| TimeSystem.NextWeekdayIsRotation | src/Core/src/TimeSystem.cpp:119-120 | the successor weekday is the one whose value is (w + 1) % 7 |
| TimeSystem.WeekdayAfterIndex | src/Core/src/TimeSystem.cpp:119-120 | after k rotations the weekday's value is (w + k) % 7 |
| TimeSystem.WeekdayCycle | src/Core/header/TimeSystem.hpp:19-28 | the rotation returns to its start after 7 steps and after no fewer |
| TimeSystem.WeekdayReturnsAt | src/Core/header/TimeSystem.hpp:19-28 | within one week of rotations the start weekday recurs iff k == 7 |
| TimeSystem.DaysInMonth | src/Core/src/TimeSystem.cpp:52-82 | 0 iff the month is outside 1..12; otherwise 28..31; 30 exactly for April, June, September and November; below 30 only for February, which has 29 iff the year is leap |
| TimeSystem.CheckDate | src/Core/src/TimeSystem.cpp:9-23 | passes iff the triple is a valid date in the range; a bad year is reported first, then a bad month |
| TimeSystem.NextDateCases | src/Core/src/TimeSystem.cpp:84-104 | below month end only the day increments; at month end it is the 1st of the next month; on 31 December it is 1 January of the next year |
| TimeSystem.NextDateStaysValid | src/Core/src/TimeSystem.cpp:84-104 | from a valid date the advance raises iff the date is 31/12/1946, and otherwise yields a valid date |
| TimeSystem.NextDateCountsOneDay | src/Core/src/TimeSystem.cpp:84-104 | on a valid date the advance adds exactly one to the day ordinal |
| TimeSystem.MonthLengthsSumToYear | src/Core/src/TimeSystem.cpp:52-82 | the twelve month lengths add up to 365, or 366 in a leap year |
| TimeSystem.LastDayNumber | src/Core/header/TimeSystem.hpp:14-15 | 31 December 1946 is 2921 days after 1 January 1939 |
| TimeSystem.WholeMonth | src/Core/src/TimeSystem.cpp:84-104 | advancing from the 1st as many times as the month has days reaches the 1st of the next month |
| TimeSystem.DateModel.Default | src/Core/src/TimeSystem.cpp:7 | the default date is 1 January 1939 |
| TimeSystem.DateModel.New | src/Core/src/TimeSystem.cpp:9-23 | the validating constructor succeeds iff every check passes, reports the first failing check, and the new object holds exactly the given date |
| TimeSystem.DateModel.SetDay | src/Core/src/TimeSystem.cpp:25-31 | succeeds iff the day exists in the current month; on success only the day changes; on failure nothing changes; validity is kept |
| TimeSystem.DateModel.SetMonth | src/Core/src/TimeSystem.cpp:32-41 | succeeds iff the month is in range and the current day fits in it; on failure nothing changes and the error says which check failed |
| TimeSystem.DateModel.SetYear | src/Core/src/TimeSystem.cpp:42-51 | succeeds iff the year is in range and the current day fits in the month that year; on failure nothing changes and the error says which check failed |
| TimeSystem.DateModel.NextDay | src/Core/src/TimeSystem.cpp:84-104 | the fields become the next date, and it raises iff the year rolled past 1946, after the fields were written |
| TimeSystem.StepAdvancesEverything | src/Core/src/TimeSystem.cpp:113-133 | a passing clock step keeps the date valid, advances the ordinal and the game day by one within the bound, and rotates the weekday |
| TimeSystem.StepWithinRange | src/Core/src/TimeSystem.cpp:113-133 | from a valid date before the last day, with the game day under its bound, a clock step passes |
| TimeSystem.AdvanceRotatesWeekday | src/Core/src/TimeSystem.cpp:119-120 | k passing steps rotate the weekday k times |
| TimeSystem.AdvanceDatesFromStart | src/Core/src/TimeSystem.cpp:106-133 | from the initial clock the first k <= 1825 steps all pass, the date is k days on, and the game day is 1 + k |
| TimeSystem.AdvanceFromStart | src/Core/src/TimeSystem.cpp:106-133 | the same, and the weekday is Thursday rotated k times |
| TimeSystem.MaxGameDayThrows | tests/Core/TimeSystem/TimeSystemTests.cpp:81-91 | from the initial clock, 1825 calls pass and the 1826th raises the game-day error with the counter at 1827 |
| TimeSystem.PastTheBoundAlwaysRaises | src/Core/src/TimeSystem.cpp:126-130 | once the counter has reached 1826, every further call raises |
| TimeSystem.LiveAppend | src/Core/src/TimeSystem.cpp:148-162 | pruning distributes over concatenation, so survivors keep their relative order |
| TimeSystem.LiveCounts | src/Core/src/TimeSystem.cpp:148-162 | a live observer is kept as often as it was registered; a dead one is not kept at all |
| TimeSystem.LiveIdempotent | src/Core/src/TimeSystem.cpp:148-162 | a second pass with the same survivors erases nothing more |
| TimeSystem.TimeDataModel.constructor | src/Core/src/TimeSystem.cpp:106-111 | the clock starts at 1 January 1939, game day 1, Thursday, with no observers |
| TimeSystem.TimeDataModel.AddDayObserver | src/Core/src/TimeSystem.cpp:143-146 | the handle is appended to the registry and the clock is unchanged |
| TimeSystem.TimeDataModel.NotifyDayObservers | src/Core/src/TimeSystem.cpp:148-162 | exactly the live observers are notified, in registration order; the registry becomes the survivors; the clock is unchanged |
| TimeSystem.TimeDataModel.NextDay | src/Core/src/TimeSystem.cpp:113-133 | the new state and the error are one clock step; it notifies the live observers only when it passes; when it raises nobody is notified |
| TimeSystem.TimeDataModel.NextTeenDays | src/Core/src/TimeSystem.cpp:135-141 | equals ten clock steps, stopping at the first that raises; each passing step notifies the live observers |
| TimeSystem.AdvanceOneMore | src/Core/src/TimeSystem.cpp:135-141 | after passing steps, one more call is one more step |
| TimeSystem.AdvanceAfterFailure | src/Core/src/TimeSystem.cpp:135-141 | once a step has raised, the remaining calls of the loop are not taken |
| Resources.NothingMissing | src/Resources/ResourcesManager.hpp:8-18 | a default shortfall record has no flag set |
| Resources.DefaultConstraints | src/Resources/ResourcesManager.hpp:20-81 | the default totals add up to the 130000 ceiling; initial totals are within their maxima; each category's daily cost equals its hiring cost and is positive; morale and security are bounded by [0, 100] and start inside the bounds |
| Resources.Staff.With | src/Resources/ResourcesManager.hpp:164-182 | replacing one category's pool leaves the other three untouched |
| Resources.Staff.TotalExcept | src/Resources/ResourcesManager.cpp:337-378 | the "other totals" of a category plus its own total give the sum of all four |
| Resources.Staff.ResetHired | src/Resources/ResourcesManager.cpp:268-274 | every hired-today counter becomes 0 and nothing else in the pools changes |
| Resources.DailyCostDependsOnWorking | src/Resources/ResourcesManager.cpp:276-284 | the daily bill depends only on the working counts |
| Resources.AddStat | src/Resources/ResourcesManager.cpp:442-452 | a clamped increment stays in bounds, saturates at the maximum, and is exact below it |
| Resources.ReduceStat | src/Resources/ResourcesManager.cpp:454-465 | a clamped decrement stays in bounds, a reduction larger than the value lands on the minimum, and it is exact otherwise |
| Resources.StatChangeFlag | src/Resources/ResourcesManager.cpp:442-493 | from a value in bounds, an increment changes it iff it is positive and the value is below the maximum; a decrement changes it iff it is positive and the value is above the minimum |
| Resources.ReduceUndoesAdd | src/Resources/ResourcesManager.cpp:442-465 | a decrement undoes an increment that did not hit a bound |
| Resources.NegativeBalancePassesHireCheck | src/Resources/ResourcesManager.cpp:72-74 | a balance of -1 passes the hiring check as compiled for a cost of 1 |
| Resources.AsWrittenIgnoresDebt | src/Resources/ResourcesManager.cpp:72-74 | every negative 64-bit balance passes the compiled check for every cost below 2^63, though it does not cover the cost |
| Resources.AvailableAsWritten | src/Resources/ResourcesManager.cpp:142-145 | the compiled `unsigned int` availability is the difference when the total covers the working count, and 2^32 minus the excess otherwise |
| Resources.UnderflowAdmitsHire | src/Resources/ResourcesManager.cpp:120-122 | with 100 at work and the total set to 50, the compiled check admits a hire of 1 that the intended one refuses |
| Resources.UnderflowAdmitsOverstaffing | src/Resources/ResourcesManager.cpp:120-122 | whenever a total sits below the working count, the compiled check admits any hire up to the wrapped availability, and each leaves more at work than the total |
| Resources.UpkeepEffects | src/Resources/ResourcesManager.cpp:40-66 | the day's wages are subtracted with no floor. A non-positive balance then costs 2 morale and 1 security (clamped); a positive one earns 1 morale. The hired-today counters are reset and the stocks are untouched |
| Resources.UpkeepDaysCost | src/Resources/ResourcesManager.cpp:40-66 | n days of upkeep cost n daily bills, keep every working count and total, and leave no hired-today count |
| Resources.ResourcesManager.constructor | src/Resources/ResourcesManager.cpp:9-38 | totals and stats are taken from the constraints, nobody works or was hired, and the day handler is appended to the clock's registry |
| Resources.ResourcesManager.DailyPersonnelCost | src/Resources/ResourcesManager.cpp:276-284 | the sum of the four category costs is the daily wage bill |
| Resources.ResourcesManager.TenDaysPersonnelCost | src/Resources/ResourcesManager.cpp:285-293 | the ten-day bill is ten daily bills |
| Resources.ResourcesManager.ThirtyDaysPersonnelCost | src/Resources/ResourcesManager.cpp:294-302 | the thirty-day bill is thirty daily bills, and three ten-day bills |
| Resources.ResourcesManager.CheckTotalNumbersOfAllPersonnel | src/Resources/ResourcesManager.cpp:260-266 | holds iff re-setting any category to its current total would pass the ceiling test |
| Resources.ResourcesManager.Hire | src/Resources/ResourcesManager.cpp:69-82 | succeeds iff enough are free and the balance covers the cost. On success working and hired-today rise by count, money falls by the cost and stays non-negative, and nothing else changes; on failure nothing changes |
| Resources.ResourcesManager.Fire | src/Resources/ResourcesManager.cpp:84-92 | succeeds iff that many are working, and changes only the working count |
| Resources.ResourcesManager.SetTotal | src/Resources/ResourcesManager.cpp:337-378 | succeeds iff both the ceiling and the category maximum allow the new total, and changes only that total; after success the ceiling check holds |
| Resources.ResourcesManager.ResetDailyHiredPersonnelCounts | src/Resources/ResourcesManager.cpp:268-274 | every hired-today counter becomes 0 and nothing else changes |
| Resources.ResourcesManager.AddMoney | src/Resources/ResourcesManager.cpp:384-390 | rejects a negative amount unchanged; otherwise money becomes min(money + amount, maximum budget) |
| Resources.ResourcesManager.SpendMoney | src/Resources/ResourcesManager.cpp:391-399 | succeeds iff money covers the amount, then leaves money non-negative; on failure nothing changes |
| Resources.ResourcesManager.AddUranium | src/Resources/ResourcesManager.cpp:405-409 | always succeeds; uranium becomes the sum capped at the maximal stock |
| Resources.ResourcesManager.SpendUranium | src/Resources/ResourcesManager.cpp:410-418 | succeeds iff the stock covers the amount; only uranium changes |
| Resources.ResourcesManager.AddPlutonium | src/Resources/ResourcesManager.cpp:423-427 | always succeeds; plutonium becomes the sum capped at the maximal stock |
| Resources.ResourcesManager.SpendPlutonium | src/Resources/ResourcesManager.cpp:428-436 | succeeds iff the stock covers the amount; only plutonium changes |
| Resources.ResourcesManager.AddMorale | src/Resources/ResourcesManager.cpp:442-452 | morale becomes the clamped increment and the result says whether it changed |
| Resources.ResourcesManager.ReduceMorale | src/Resources/ResourcesManager.cpp:454-465 | morale becomes the clamped decrement and the result says whether it changed |
| Resources.ResourcesManager.AddSecurity | src/Resources/ResourcesManager.cpp:471-481 | security becomes the clamped increment and the result says whether it changed |
| Resources.ResourcesManager.ReduceSecurity | src/Resources/ResourcesManager.cpp:483-493 | security becomes the clamped decrement and the result says whether it changed |
| Resources.ResourcesManager.OnDayPassed | src/Resources/ResourcesManager.cpp:40-66 | the new economy is one daily upkeep of the old |
| Research.StateTestsExclusive | src/Research/ResearchManager.hpp:59-61 | the three state tests exclude each other, and none holds exactly when the technology is Locked |
| Research.Fresh | src/Research/ResearchManager.hpp:55-57 | a loaded entry is Locked with no progress, and its catalogue data is unchanged |
| Research.SameCompletionSamePrerequisites | src/Research/ResearchManager.cpp:69-78 | whether the prerequisites are met depends only on which technologies are completed |
| Research.Availability | src/Research/ResearchManager.cpp:62-83 | the availability pass keeps the set of ids |
| Research.AvailabilityEffect | src/Research/ResearchManager.cpp:62-83 | the pass changes only states and keeps Completed and InProgress. A technology ends Available iff it was Available, or was Locked with every prerequisite present and completed. Nothing moves backwards, and entries stay keyed by id |
| Research.AvailabilityIsFixpoint | src/Research/ResearchManager.cpp:62-83 | after one pass no Locked technology has all its prerequisites completed, and a second pass changes nothing |
| Research.CatalogueUntouched | src/Research/ResearchManager.cpp:55 | an id no entry carries keeps its old entry, or stays absent |
| Research.CatalogueLastWins | src/Research/ResearchManager.cpp:55 | an id some entry carries holds the fresh form of the last entry with that id |
| Research.CatalogueKeyedById | src/Research/ResearchManager.cpp:55 | loading keeps every entry under its own id and drops no id |
| Research.MissingMonotone | src/Research/ResearchManager.cpp:96-117 | a richer economy raises no shortfall flag that a poorer one does not |
| Research.NoRequirementsNothingMissing | src/Research/ResearchManager.cpp:96-117 | a technology with no requirements raises no shortfall flag in an economy without debt |
| Research.NothingMissingIff | src/Research/ResearchManager.cpp:96-122 | nothing is missing iff every requirement is met, and then paying the money cost leaves no debt |
| Research.StartEffect | src/Research/ResearchManager.cpp:85-139 | fails with no change for an unknown id, a Locked or a Completed technology; reports exactly the shortfall and fails with no change if anything is missing; otherwise the technology is InProgress and in the slot, charged its cost iff it was Available, and the balance stays non-negative |
| Research.StartKeepsInvariants | src/Research/ResearchManager.cpp:85-139 | a start keeps the entries keyed by id, moves nothing backwards, and keeps the slot pointing at an InProgress technology |
| Research.SecondStartOverwritesSlot | src/Research/ResearchManager.cpp:130-138 | starting a second technology while one runs succeeds when the balance left after the first covers it; both are charged, the slot moves to the second, and both stay InProgress |
| Research.TickEffect | src/Research/ResearchManager.cpp:142-166 | an empty slot changes nothing; a stale id only clears the slot. Otherwise only the active technology's progress moves, by exactly one. It completes iff progress reaches its research days, and then the slot is cleared and the completed record is reported |
| Research.TickKeepsInvariants | src/Research/ResearchManager.cpp:142-166 | a tick keeps the entries keyed by id, moves nothing backwards, and keeps the slot invariant |
| Research.TicksWhileRunning | src/Research/ResearchManager.cpp:154-157 | while progress stays below the research days, n ticks add n days and keep the slot |
| Research.TicksToComplete | src/Research/ResearchManager.cpp:157 | the number of ticks needed is max(R, 1) for R research days |
| Research.RunsUntilLastDay | src/Research/ResearchManager.cpp:155-157 | a technology started from zero progress is still InProgress and in the slot after max(R, 1) - 1 ticks |
| Research.CompletesAfterExactly | src/Research/ResearchManager.cpp:155-165 | and the max(R, 1)-th tick completes it and empties the slot |
| Research.CompletedEventsInOrder | src/Research/ResearchManager.cpp:161-162 | every completion listener is called exactly once, in registration order |
| Research.MissingEventsInOrder | src/Research/ResearchManager.cpp:124-125 | every missing-resources listener is called exactly once, in registration order |
| Research.ResearchManager.constructor | src/Research/ResearchManager.cpp:11-20 | no technologies, an empty slot, no listeners; the day handler is appended to the clock's registry |
| Research.ResearchManager.PrerequisitesDone | src/Research/ResearchManager.cpp:69-78 | true iff every prerequisite id names a completed technology |
| Research.ResearchManager.UpdateAvailability | src/Research/ResearchManager.cpp:62-83 | updating entries one at a time, in any order, gives the pass judged against the map as it was; nothing else changes |
| Research.ResearchManager.Load | src/Research/ResearchManager.cpp:27-59 | the entries are inserted in order with fresh state, then the availability pass runs; ids stay keys |
| Research.ResearchManager.IsCompleted | src/Research/ResearchManager.cpp:169-173 | true exactly for a known, completed id |
| Research.ResearchManager.IsAvailable | src/Research/ResearchManager.cpp:175-179 | true exactly for a known, available id, which is then not completed |
| Research.ResearchManager.GetActiveResearch | src/Research/ResearchManager.cpp:191-201 | nothing when the slot is empty or names an unknown id, otherwise the technology in the slot |
| Research.ResearchManager.StartResearch | src/Research/ResearchManager.cpp:85-139 | state, verdict and balance are those of the start function; a shortfall is sent to every missing-resources listener in order; only the economy's money changes |
| Research.ResearchManager.OnDayPassed | src/Research/ResearchManager.cpp:142-166 | state is one tick of the old state, and the completion listeners are called in order iff that tick completed a technology |
| Research.ResearchManager.AddResearchCompletedListener | src/Research/ResearchManager.cpp:209-213 | the listener is appended and nothing else changes |
| Research.ResearchManager.AddResearchMissingResourcesListener | src/Research/ResearchManager.cpp:215-219 | the listener is appended and nothing else changes |
| Simulation.Simulation.constructor | src/main.cpp:53-65 | clock, economy and research are built in that order, the registry holds the economy's handle and then the research handle, and every part is at its initial state |
| Simulation.Simulation.Tick | src/Core/src/TimeSystem.cpp:113-133 | one clock step. When it passes, one upkeep and one research tick follow; when it raises, neither changes |
| Simulation.Simulation.NextOfTenDays | src/Core/src/TimeSystem.cpp:135-141 | one more day of the ten-day advance keeps clock, economy and research in step, or reaches the final state of the whole call |
| Simulation.Simulation.NextTenDays | src/Core/src/TimeSystem.cpp:135-141 | ten clock steps stopping at the first that raises; the economy has had one upkeep and research one tick per passing day, with their listener calls in order |
| Simulation.TestCatalogueLoads | tests/ResearchManagerTests.cpp:92-100 | loading the two test entries keeps both, opens the root and keeps its dependant Locked |
| Simulation.RootCompletionUnlocksDependant | tests/ResearchManagerTests.cpp:130-138 | once the root is completed the pass makes its dependant Available |
| Simulation.ResearchFixture | tests/ResearchManagerTests.cpp:23-81 | the fixture's economy has 109500 money and 100 of 100 scientists working; the root is Available and its dependant is not |
| Simulation.StartResearchSucceeds | tests/ResearchManagerTests.cpp:102-106 | the root starts, is charged 1000 once, and is the active research |
| Simulation.EarlyTickRuns | tests/ResearchManagerTests.cpp:108-116 | before its third day the root only gains a day of progress and no listener is called |
| Simulation.TwoDaysIn | tests/ResearchManagerTests.cpp:108-116 | two days after the start the root has two days of progress |
| Simulation.ThirdTickCompletes | tests/ResearchManagerTests.cpp:118-157 | the third tick completes the root, clears the slot, opens the dependant and calls the listener once |
| Simulation.ResearchCompletesAfterThreeDays | tests/ResearchManagerTests.cpp:118-157 | three days after the start the root is completed, the slot is empty, the dependant is available and the listener was called once with the root |
| Simulation.CannotStartWithoutScientists | tests/ResearchManagerTests.cpp:159-167 | the start on an unfunded second economy fails for want of scientists alone, and money stays 10000 |
| Simulation.MissingResourcesReported | tests/ResearchManagerTests.cpp:169-184 | with the scientists fired the start fails and the listener is called once, with only the scientists flag |
| Simulation.IdleHasNoActiveResearch | tests/ResearchManagerTests.cpp:186-189 | with nothing started there is no active research |
| Simulation.UpkeepRunsIntoDebt | tests/ResourcesManagerTests.cpp:58-84 | one day of wages for 100 scientists from a balance of 1 leaves -499, morale 58 and security 39 |
| Simulation.HiredCountersReset | tests/ResourcesManagerTests.cpp:99-109 | one day charges the hired staff's wages and clears the hired-today counters, so hiring again succeeds |

## Left out

- JSON loading is left out: file access and parsing are I/O. This covers
  `ResearchManager::loadFromJson`'s file access and parsing and all of
  `ResourceConstraints.cpp`.
  - `Research.ResearchManager.Load` takes the parsed records as a sequence.
  - The constraints are a `ResourceConstraints` value given to the economy.
- `getProgress` is left out because it returns a float. The pair
  `(progressDays, researchDays)` on each technology stands in for it.
- The UI, the ImGui/SDL main loop and `ResourceConstraints.hpp` are left out.
  The header duplicates the record already declared in `ResourcesManager.hpp`.
- `std::function`, `shared_ptr`/`weak_ptr` and `enable_shared_from_this` are
  left out.
  - Day observers are `DayObserverHandle` identities, and liveness is the
    `alive` parameter.
  - Listeners are tokens, and a call is an event appended to a log.
  - The clock's `const TimeDataModel&` argument to observers is not passed,
    because no handler reads it.
- Observer callbacks run after the notification pass, not inside it:
  `Simulation.Simulation.Tick` dispatches the handles the pass returned. This
  is equivalent for this core, because neither handler touches the registry
  or the clock.
- Exceptions are `Outcome`/`Result` values. An exception propagating out of
  `nextTeenDays` is modelled as that loop returning early.
- Getters (`day()`, `currentGameDay()`, the economy getters,
  `getAllTechnologies`) are read as fields or through the `reads`-only
  functions `Value`, `State` and `Snapshot`. Being functions, they cannot
  modify state.
- Constraint aliasing is left out. The economy holds a reference to its
  constraints, so the source would see a caller's later edits; here the
  constraints are a fixed value taken at construction. `getResourceConstraints`
  is not modelled.
- Unused data is left out: the budget-phase fields and `real_budget`/
  `minimum_budget` of the constraints, `m_daylyCost`, the building and
  character lists of a technology, and the empty `calculateResearchTime`.
  None of them affects any behaviour.
- Resources.ResourcesManager.Hire: does not model the compiled
  signed/unsigned money comparison. It uses the intended check instead; see
  Findings.
- Resources.ResourcesManager.Hire: does not model 32-bit wrap-around of
  `count * hiringCost`, because integers here are mathematical.
- Resources.ResourcesManager.Hire: does not model the wrapped availability.
  `total - working` is an `unsigned int` in the source, so once `SetTotal`
  has lowered a total below the working count it wraps to about 2^32 and the
  hire is accepted: with 100 scientists at work, setting their total to 50 and
  hiring 1 leaves 101 at work against a total of 50. The model refuses that
  hire, and its `ok ==> working <= total` clause holds of the model, not of
  the source in that state. The compiled behaviour is
  Resources.AvailableAsWritten; see Findings.
- Resources.ResourcesManager.AvailableToHire: does not model unsigned
  underflow. It is negative, not wrapped, when `SetTotal` has lowered a total
  below the working count; the source does not forbid that.
- TimeSystem.Step: the game-day counter `m_currentGameDay` is an
  `unsigned short` and is unbounded here. In the source, every raising call
  still increments it, so after about 63,700 further raising calls it would
  wrap and a call would pass again. TimeSystem.PastTheBoundAlwaysRaises
  holds only for the unbounded counter. This is unreachable in the game:
  the "Next day" button calls `nextDay` with no handler, so the first error
  ends the program.
- Resources.ResourcesManager.AddUranium: does not model 32-bit overflow of
  `uranium + amount` before the cap. The same holds for
  Resources.ResourcesManager.AddPlutonium, AddMorale and AddSecurity.
- Resources.ResourcesManager.DailyPersonnelCost: does not model 32-bit
  overflow of the per-category products. The same holds for the ten- and
  thirty-day bills.
- Research.Technology: the `unsigned short` research days, the `unsigned`
  progress counter and the `unsigned short` date fields are unbounded
  naturals here. No reachable value comes near their limits: dates stop at
  1947 and the clock at 1827 days.

## Findings

| source | as written | input that shows it | evidently intended | confidence | as-written member | corrected member |
|---|---|---|---|---|---|---|
| src/Resources/ResourcesManager.cpp:72-74 | `m_money >= cost` compares a signed `long` balance with an `unsigned long` cost. The balance is converted to unsigned, so a negative balance (which daily upkeep can produce) reads as a huge one and the hire goes through, deepening the debt. The same holds at lines 121-122, 169-170 and 217-218 | money = -1, hire 1 worker at cost 1: the check passes and money becomes -2 | hiring requires the balance to cover the cost, so a hire never runs a balance negative | not executed | Resources.NegativeBalancePassesHireCheck | Resources.ResourcesManager.Hire |
| src/Resources/ResourcesManager.cpp:120-122 | `available` is `m_totalScientists - m_workingScientists` in `unsigned int` (line 144). `setTotalScientists` (lines 348-357) does not compare the new total with the working count, so the subtraction can wrap to a huge number and the hire passes. The same holds for the other three categories | 100 scientists at work of 100, `setTotalScientists(50)`, `hireScientists(1)`: returns true and leaves 101 at work of 50 | a hire never puts more people to work than the category's total | not executed | Resources.UnderflowAdmitsHire | Resources.ResourcesManager.Hire |
