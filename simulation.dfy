/**
 * The composition of the three state machines as the program wires them: the
 * clock is built first, then the economy and then the research manager, each
 * registering its day handler with the clock, so a day tick runs the economy's
 * upkeep before the research tick.
 *
 * At the end, scenario methods replay the unit tests of the three components on
 * the model and state the values those tests expect.
 */
module Simulation {
  import opened Wrappers
  import TimeSystem
  import Resources
  import Research

  class Simulation {
    const clock: TimeSystem.TimeDataModel
    const resources: Resources.ResourcesManager
    const research: Research.ResearchManager

    /**
     * The wiring: the clock's registry holds the economy's handle and then the
     * research handle, the research manager charges this economy, and both
     * managers keep their own invariants.
     */
    ghost predicate Valid()
      reads this, clock, resources, research
    {
      && clock.dayObservers == [resources.dayObserver, research.dayObserver]
      && resources.dayObserver != research.dayObserver
      && research.resources == resources
      && resources.Valid() && research.Valid()
    }

    /** The handles of the two managers, which live as long as the simulation. */
    function Handles(): set<TimeSystem.DayObserverHandle>
      reads this, resources, research
    {
      {resources.dayObserver, research.dayObserver}
    }

    /** Builds the clock, then the economy, then the research manager, as the program does. */
    constructor(k: Resources.ResourceConstraints)
      requires k.StatBoundsOrdered()
      ensures Valid()
      ensures fresh(clock) && fresh(clock.currentDate) && fresh(resources) && fresh(research)
      ensures clock.State() == TimeSystem.InitialClock()
      ensures resources.constraints == k
      ensures forall c :: resources.staff.Get(c) == Resources.Pool(k.InitialTotal(c), 0, 0)
      ensures resources.money == k.initialMoney && resources.uranium == k.initialUranium
      ensures resources.plutonium == k.initialPlutonium
      ensures resources.morale == k.initialMorale && resources.security == k.initialSecurity
      ensures research.State() == Research.Lab(map[], None)
      ensures research.completedListeners == [] && research.missingListeners == [] && research.events == []
    {
      var time := new TimeSystem.TimeDataModel();
      var economy := new Resources.ResourcesManager(k, time);
      var lab := new Research.ResearchManager(time, economy);
      clock := time;
      resources := economy;
      research := lab;
    }

    /**
     * One `nextDay` of the clock followed by the callbacks of the handles it
     * notified, in registration order. When the clock raises, no callback runs.
     */
    method Tick() returns (r: Outcome<TimeSystem.RangeError>)
      requires Valid()
      modifies clock, clock.currentDate, resources, research
      ensures Valid()
      ensures (clock.State(), r) == TimeSystem.Step(old(clock.State()))
      ensures r.Pass? ==> resources.Snapshot() == Resources.Upkeep(old(resources.Snapshot()), resources.constraints)
      ensures r.Pass? ==> research.State() == Research.Tick(old(research.State())).lab
      ensures r.Pass? ==> research.events == old(research.events) + Research.DayEvents(old(research.State()), research.completedListeners)
      ensures r.Fail? ==> resources.Snapshot() == old(resources.Snapshot())
      ensures r.Fail? ==> research.State() == old(research.State()) && research.events == old(research.events)
      ensures research.completedListeners == old(research.completedListeners)
      ensures research.missingListeners == old(research.missingListeners)
    {
      var notified;
      r, notified := clock.NextDay(Handles());
      ghost var registry := [resources.dayObserver, research.dayObserver];
      if r.Pass? {
        assert registry[..1] == [resources.dayObserver] && registry[..1][..0] == [];
        assert TimeSystem.Live(registry[..1], Handles()) == [resources.dayObserver];
        assert notified == registry;
      }
      ghost var economy := resources.Snapshot();
      ghost var lab := research.State();
      ghost var log := research.events;
      var i := 0;
      while i < |notified|
        invariant 0 <= i <= |notified|
        invariant r.Pass? ==> notified == registry
        invariant r.Fail? ==> notified == []
        invariant resources.Valid() && research.Valid()
        invariant research.completedListeners == old(research.completedListeners)
        invariant research.missingListeners == old(research.missingListeners)
        invariant i == 0 ==> resources.Snapshot() == economy
        invariant i >= 1 ==> resources.Snapshot() == Resources.Upkeep(economy, resources.constraints)
        invariant i <= 1 ==> research.State() == lab && research.events == log
        invariant i == 2 ==> research.State() == Research.Tick(lab).lab
        invariant i == 2 ==> research.events == log + Research.DayEvents(lab, research.completedListeners)
        modifies resources, research
      {
        var h := notified[i];
        if h == resources.dayObserver {
          resources.OnDayPassed();
        } else if h == research.dayObserver {
          research.OnDayPassed();
        }
        i := i + 1;
      }
    }

    /** The wiring holds and the clock stands `days` days after `start`, without having raised. */
    ghost predicate OnSchedule(start: TimeSystem.ClockState, days: nat)
      reads this, clock, clock.currentDate, resources, research
    {
      Valid() && (clock.State(), Pass) == TimeSystem.Advance(start, days)
    }

    /**
     * After `days` ticks from the recorded starting point: the economy has had
     * `days` upkeeps, the research state `days` ticks, and the log holds the
     * calls of those ticks.
     */
    ghost predicate RanFor(economy: Resources.Economy, lab: Research.Lab, log: seq<Research.ResearchEvent>, days: nat)
      reads this, resources, research
    {
      && resources.Valid()
      && resources.Snapshot() == Resources.UpkeepDays(economy, resources.constraints, days)
      && research.State() == Research.Ticks(lab, days)
      && research.events == log + Research.TicksEvents(lab, research.completedListeners, days)
    }

    /**
     * Day `days + 1` of `NextTenDays` (whose horizon is ten days): one `Tick`, after which the clock, the
     * economy and the research state have advanced by one more day, or the
     * clock has raised and the whole ten-day call has reached its end state.
     */
    method NextOfTenDays(ghost start: TimeSystem.ClockState, ghost economy: Resources.Economy,
                         ghost lab: Research.Lab, ghost log: seq<Research.ResearchEvent>,
                         ghost horizon: nat, days: nat)
      returns (r: Outcome<TimeSystem.RangeError>)
      requires days < horizon
      requires OnSchedule(start, days)
      requires RanFor(economy, lab, log, days)
      modifies clock, clock.currentDate, resources, research
      ensures Valid()
      ensures research.completedListeners == old(research.completedListeners)
      ensures r.Pass? ==> OnSchedule(start, days + 1)
      ensures r.Fail? ==> (clock.State(), r) == TimeSystem.Advance(start, horizon)
      ensures RanFor(economy, lab, log, if r.Pass? then days + 1 else days)
    {
      ghost var before, logged := research.State(), research.events;
      TimeSystem.AdvanceOneMore(start, days);
      r := Tick();
      if r.Fail? {
        TimeSystem.AdvanceAfterFailure(start, days + 1, horizon);
      } else {
        Research.TicksEventsStep(lab, research.completedListeners, days, log, before, logged, research.events);
      }
    }

    /**
     * `nextTeenDays`: up to ten ticks, stopping at the first one that raises.
     * `days` is the number of ticks whose callbacks ran.
     */
    method NextTenDays() returns (r: Outcome<TimeSystem.RangeError>, days: nat)
      requires Valid()
      modifies clock, clock.currentDate, resources, research
      ensures Valid()
      ensures (clock.State(), r) == TimeSystem.Advance(old(clock.State()), 10)
      ensures days <= 10 && (r.Pass? <==> days == 10)
      ensures resources.Snapshot() == Resources.UpkeepDays(old(resources.Snapshot()), resources.constraints, days)
      ensures research.State() == Research.Ticks(old(research.State()), days)
      ensures research.events == old(research.events) + Research.TicksEvents(old(research.State()), research.completedListeners, days)
    {
      ghost var start := clock.State();
      ghost var economy := resources.Snapshot();
      ghost var lab := research.State();
      ghost var log := research.events;
      r := Pass;
      days := 0;
      while days < 10
        invariant days <= 10 && r == Pass
        invariant OnSchedule(start, days) && RanFor(economy, lab, log, days)
        invariant research.completedListeners == old(research.completedListeners)
      {
        r := NextOfTenDays(start, economy, lab, log, 10, days);
        if r.Fail? {
          return;
        }
        days := days + 1;
      }
    }
  }

  // ---------------------------------------------------------------------------
  // The unit tests, replayed
  // ---------------------------------------------------------------------------

  /** The catalogue's root technology used by the research tests. */
  function BasicPhysics(): Research.Technology
  {
    Research.Technology(
      "basic_physics", "Basics of Nuclear Physics", Research.Theory, 3, [],
      "Understanding the basic principles of nuclear physics.",
      1000, 0, 0, 0, 0, 10, 0, Research.Locked, 0)
  }

  /** The dependent technology used by the research tests. */
  function UraniumEnrichment(): Research.Technology
  {
    Research.Technology(
      "uranium_enrichment", "Uranium Enrichment", Research.Theory, 5, ["basic_physics"],
      "Separating U-235 from natural uranium.",
      2000, 0, 0, 0, 0, 20, 0, Research.Locked, 0)
  }

  /** The test catalogue once loaded: the root available, its dependant still locked. */
  function TestCatalogue(): map<string, Research.Technology>
  {
    map["basic_physics" := BasicPhysics().(state := Research.Available), "uranium_enrichment" := UraniumEnrichment()]
  }

  /**
   * Loading the two test entries into an empty catalogue keys them by id and
   * the availability pass then opens the root, whose prerequisite list is
   * empty, and not its dependant, whose prerequisite is not completed.
   */
  lemma TestCatalogueLoads()
    ensures Research.Availability(Research.Catalogue(map[], [BasicPhysics(), UraniumEnrichment()])) == TestCatalogue()
  {
    var entries := [BasicPhysics(), UraniumEnrichment()];
    var loaded := Research.Catalogue(map[], entries);
    assert entries[..1] == [BasicPhysics()] && entries[..1][..0] == [];
    assert Research.Catalogue(map[], entries[..1]) == map["basic_physics" := BasicPhysics()];
    assert loaded == map["basic_physics" := BasicPhysics(), "uranium_enrichment" := UraniumEnrichment()];
    Research.AvailabilityEffect(loaded);
    assert !Research.AllCompleted(loaded, ["basic_physics"]) by {
      var p := UraniumEnrichment().prerequisites;
      assert p[0] == "basic_physics" && !loaded[p[0]].IsCompleted();
    }
    assert Research.AllCompleted(loaded, []);
  }

  /** Once the root is completed, the availability pass opens its dependant. */
  lemma RootCompletionUnlocksDependant(done: Research.Technology)
    requires done.IsCompleted() && done.prerequisites == []
    ensures Research.Availability(map["basic_physics" := done, "uranium_enrichment" := UraniumEnrichment()])
         == map["basic_physics" := done, "uranium_enrichment" := UraniumEnrichment().(state := Research.Available)]
  {
    var m := map["basic_physics" := done, "uranium_enrichment" := UraniumEnrichment()];
    Research.AvailabilityEffect(m);
    assert Research.AllCompleted(m, ["basic_physics"]) by {
      var p := UraniumEnrichment().prerequisites;
      forall i | 0 <= i < |p| ensures p[i] in m && m[p[i]].IsCompleted() {
        assert p[i] == "basic_physics";
      }
    }
  }

  /**
   * The research fixture: default constraints, 100000 added, the scientist
   * total set to 100 and all 100 hired, then the two-entry catalogue loaded.
   * The root is available and its dependant is not.
   */
  method ResearchFixture() returns (sim: Simulation)
    ensures sim.Valid()
    ensures fresh(sim.clock) && fresh(sim.clock.currentDate) && fresh(sim.resources) && fresh(sim.research)
    ensures sim.clock.State() == TimeSystem.InitialClock()
    ensures sim.resources.money == 109500
    ensures sim.resources.staff.scientists == Resources.Pool(100, 100, 100)
    ensures sim.research.State() == Research.Lab(TestCatalogue(), None)
    ensures sim.research.IsAvailable("basic_physics") && !sim.research.IsAvailable("uranium_enrichment")
    ensures sim.research.completedListeners == [] && sim.research.missingListeners == [] && sim.research.events == []
  {
    var k := Resources.DefaultConstraints();
    sim := new Simulation(k);
    var funded := sim.resources.AddMoney(100000);
    assert sim.resources.staff.Get(Resources.Workers).total == 100000;
    assert sim.resources.staff.Get(Resources.Engineers).total == 7000;
    assert sim.resources.staff.Get(Resources.Army).total == 20000;
    assert sim.resources.staff.TotalExcept(Resources.Scientists) == 127000;
    var capped := sim.resources.SetTotal(Resources.Scientists, 100);
    assert capped && sim.resources.staff.scientists == Resources.Pool(100, 0, 0);
    var hired := sim.resources.Hire(Resources.Scientists, 100);
    assert hired;
    sim.research.Load([BasicPhysics(), UraniumEnrichment()]);
    TestCatalogueLoads();
  }

  /** `StartResearchSucceeds`: the root starts, is charged once, and fills the slot. */
  method StartResearchSucceeds() returns (ok: bool, active: Option<Research.Technology>, money: int)
    ensures ok && active.Some? && active.value.id == "basic_physics" && active.value.IsInProgress()
    ensures money == 109500 - 1000
  {
    var sim := ResearchFixture();
    ok := sim.research.StartResearch("basic_physics");
    active := sim.research.GetActiveResearch();
    money := sim.resources.money;
  }

  /** The research fixture with one completion listener and the root started. */
  method StartedFixture() returns (sim: Simulation)
    ensures sim.Valid()
    ensures fresh(sim.clock) && fresh(sim.clock.currentDate) && fresh(sim.resources) && fresh(sim.research)
    ensures sim.clock.State() == TimeSystem.InitialClock()
    ensures sim.research.State() == RootRunning(0)
    ensures sim.research.completedListeners == [0] && sim.research.events == []
  {
    sim := ResearchFixture();
    sim.research.AddResearchCompletedListener(0);
    var ok := sim.research.StartResearch("basic_physics");
  }

  /** The lab of the research tests with the root started and `progress` days into it. */
  function RootRunning(progress: nat): Research.Lab
  {
    Research.Lab(
      map["basic_physics" := BasicPhysics().(state := Research.InProgress, progressDays := progress),
          "uranium_enrichment" := UraniumEnrichment()],
      Some("basic_physics"))
  }

  /** Before its third day the root only gains a day of progress, and nobody is called. */
  lemma EarlyTickRuns(progress: nat)
    requires progress < 2
    ensures Research.Tick(RootRunning(progress)) == Research.TickStep(RootRunning(progress + 1), None)
    ensures Research.DayEvents(RootRunning(progress), [0]) == []
  {
    var techs := RootRunning(progress).techs;
    assert techs["basic_physics" := techs["basic_physics"].(progressDays := progress + 1)] == RootRunning(progress + 1).techs;
  }

  /** The started fixture one day on: the root has one of its three days. */
  method OneDayIn() returns (sim: Simulation)
    ensures sim.Valid()
    ensures fresh(sim.clock) && fresh(sim.clock.currentDate) && fresh(sim.resources) && fresh(sim.research)
    ensures sim.clock.State() == TimeSystem.Step(TimeSystem.InitialClock()).0
    ensures sim.research.State() == RootRunning(1)
    ensures sim.research.completedListeners == [0] && sim.research.events == []
  {
    sim := StartedFixture();
    EarlyTickRuns(0);
    var r := sim.Tick();
    assert r.Pass?;
  }

  /** The started fixture two days on: the root has two of its three days and nobody was called. */
  method TwoDaysIn() returns (sim: Simulation)
    ensures sim.Valid()
    ensures fresh(sim.clock) && fresh(sim.clock.currentDate) && fresh(sim.resources) && fresh(sim.research)
    ensures TimeSystem.Step(sim.clock.State()).1.Pass?
    ensures sim.research.State() == RootRunning(2)
    ensures sim.research.completedListeners == [0] && sim.research.events == []
  {
    sim := OneDayIn();
    EarlyTickRuns(1);
    var r := sim.Tick();
    assert r.Pass?;
  }

  /** The root completed at its third day. */
  function FinishedRoot(): Research.Technology
  {
    BasicPhysics().(state := Research.Completed, progressDays := 3)
  }

  /**
   * On the third tick the root reaches its three research days: it is
   * Completed, the slot is cleared, the dependant becomes available, and a
   * single completion listener is called once with the completed root.
   */
  lemma ThirdTickCompletes()
    ensures Research.Tick(RootRunning(2)) == Research.TickStep(Research.Lab(
      map["basic_physics" := FinishedRoot(), "uranium_enrichment" := UraniumEnrichment().(state := Research.Available)],
      None), Some(FinishedRoot()))
    ensures Research.DayEvents(RootRunning(2), [0]) == [Research.ResearchCompleted(0, FinishedRoot())]
  {
    var techs := RootRunning(2).techs;
    assert techs["basic_physics" := FinishedRoot()]
        == map["basic_physics" := FinishedRoot(), "uranium_enrichment" := UraniumEnrichment()];
    RootCompletionUnlocksDependant(FinishedRoot());
    assert [0][..0] == [];
  }

  /**
   * The started fixture three days on: the third tick completes the root,
   * clears the slot, opens the dependant and calls the completion listener.
   */
  method ThreeDaysIn() returns (sim: Simulation)
    ensures sim.research.State() == Research.Lab(
      map["basic_physics" := FinishedRoot(), "uranium_enrichment" := UraniumEnrichment().(state := Research.Available)],
      None)
    ensures sim.research.events == [Research.ResearchCompleted(0, FinishedRoot())]
  {
    sim := TwoDaysIn();
    ThirdTickCompletes();
    var r := sim.Tick();
  }

  /**
   * `ResearchCompletesAfterEnoughDays`, `UnlocksDependentTechnology` and
   * `ResearchCompletedCallbackIsCalled`: three days after the start the root is
   * completed, the slot is empty, the dependant is available, and the one
   * completion listener was called once with the root.
   */
  method ResearchCompletesAfterThreeDays() returns (completed: bool, idle: bool, unlocked: bool, events: seq<Research.ResearchEvent>)
    ensures completed && idle && unlocked
    ensures events == [Research.ResearchCompleted(0, BasicPhysics().(state := Research.Completed, progressDays := 3))]
  {
    var sim := ThreeDaysIn();
    completed := sim.research.IsCompleted("basic_physics");
    idle := sim.research.GetActiveResearch().None?;
    unlocked := sim.research.IsAvailable("uranium_enrichment");
    events := sim.research.events;
  }

  /**
   * `CannotStartResearchWithoutMoney`: a second economy at the defaults has
   * 10000, enough for the cost of 1000, but nobody working, so the start fails
   * for want of scientists alone and changes nothing.
   */
  method CannotStartWithoutScientists() returns (ok: bool, missing: Resources.ResourceMissing, money: int)
    ensures !ok && money == 10000
    ensures missing == Resources.NothingMissing().(scientists := true)
  {
    var sim := new Simulation(Resources.DefaultConstraints());
    TestCatalogueLoads();
    sim.research.Load([BasicPhysics(), UraniumEnrichment()]);
    assert sim.resources.staff.Get(Resources.Workers).working == 0;
    assert sim.resources.staff.Get(Resources.Scientists).working == 0;
    assert sim.resources.staff.Get(Resources.Engineers).working == 0;
    assert sim.resources.staff.Get(Resources.Army).working == 0;
    missing := Research.Missing(sim.research.techs["basic_physics"], sim.resources.Snapshot());
    ok := sim.research.StartResearch("basic_physics");
    money := sim.resources.money;
  }

  /**
   * `MissingResourcesCallbackIsCalled`: with all scientists fired, the start
   * fails and the one missing-resources listener is called once, with only
   * the scientists flag raised.
   */
  method MissingResourcesReported() returns (ok: bool, events: seq<Research.ResearchEvent>)
    ensures !ok
    ensures events == [Research.ResourcesMissing(0, Resources.NothingMissing().(scientists := true),
                                                 BasicPhysics().(state := Research.Available))]
  {
    var sim := ResearchFixture();
    var fired := sim.resources.Fire(Resources.Scientists, 100);
    sim.research.AddResearchMissingResourcesListener(0);
    ok := sim.research.StartResearch("basic_physics");
    events := sim.research.events;
  }

  /** `GetActiveResearchReturnsNullWhenIdle`. */
  method IdleHasNoActiveResearch() returns (active: Option<Research.Technology>)
    ensures active.None?
  {
    var sim := ResearchFixture();
    active := sim.research.GetActiveResearch();
  }

  /**
   * `MoraleAndSecurityDecreaseWhenMoneyIsNegative` and
   * `MoneyCanBecomeNegativeAfterDayPassed`: 100 scientists hired, the balance
   * spent down to 1, one day of wages (500) leaves -499, morale 60 - 2 and
   * security 40 - 1.
   */
  method UpkeepRunsIntoDebt() returns (money: int, morale: nat, security: nat)
    ensures money == -499 && morale == 58 && security == 39
  {
    var sim := new Simulation(Resources.DefaultConstraints());
    assert sim.resources.staff.Get(Resources.Scientists) == Resources.Pool(3000, 0, 0);
    assert sim.resources.money == 10000;
    var hired := sim.resources.Hire(Resources.Scientists, 100);
    assert hired;
    assert sim.resources.money == 9500;
    var spent := sim.resources.SpendMoney(sim.resources.money - 1);
    assert sim.resources.money == 1;
    assert sim.resources.staff.Get(Resources.Workers).working == 0;
    assert sim.resources.staff.Get(Resources.Engineers).working == 0;
    assert sim.resources.staff.Get(Resources.Army).working == 0;
    assert Resources.DailyCost(sim.resources.staff, sim.resources.constraints) == 500;
    var r := sim.Tick();
    assert r.Pass?;
    money, morale, security := sim.resources.money, sim.resources.morale, sim.resources.security;
  }

  /**
   * `DailyHiredCountersAreReset` and `DailyCostIsSubtractedOnDayPassed`: after
   * hiring 5 workers and 3 scientists, one day costs 5 + 15, clears the
   * hired-today counters, and hiring one more of each then succeeds.
   */
  method HiredCountersReset() returns (money: int, workersToday: nat, scientistsToday: nat, again: bool)
    ensures money == 10000 - 5 - 15 - 5 - 15 - 1 - 5
    ensures workersToday == 1 && scientistsToday == 1 && again
  {
    var sim := new Simulation(Resources.DefaultConstraints());
    assert sim.resources.staff.Get(Resources.Workers) == Resources.Pool(100000, 0, 0);
    assert sim.resources.staff.Get(Resources.Scientists) == Resources.Pool(3000, 0, 0);
    var w := sim.resources.Hire(Resources.Workers, 5);
    var s := sim.resources.Hire(Resources.Scientists, 3);
    assert sim.resources.staff.Get(Resources.Engineers).working == 0;
    assert sim.resources.staff.Get(Resources.Army).working == 0;
    assert Resources.DailyCost(sim.resources.staff, sim.resources.constraints) == 5 + 15;
    var r := sim.Tick();
    assert r.Pass?;
    assert sim.resources.staff.Get(Resources.Workers) == Resources.Pool(100000, 5, 0);
    assert sim.resources.staff.Get(Resources.Scientists) == Resources.Pool(3000, 3, 0);
    var w2 := sim.resources.Hire(Resources.Workers, 1);
    var s2 := sim.resources.Hire(Resources.Scientists, 1);
    again := w2 && s2;
    money := sim.resources.money;
    workersToday, scientistsToday := sim.resources.staff.workers.hiredToday, sim.resources.staff.scientists.hiredToday;
  }
}
