/**
 * The economy: money, two material stocks, four personnel pools and two
 * clamped facility stats, with guarded commands and a daily upkeep handler.
 *
 * Integers are mathematical. The machine-integer effects of the original are
 * not reproduced: a `count * cost` product or a `stock + amount` sum that would
 * overflow 32 or 64 bits, and `total - working` wrapping around when a total
 * has been set below the working count (here that difference is simply negative).
 */
module Resources {
  import TimeSystem

  /** Which requirements of a research start the economy cannot meet. */
  datatype ResourceMissing = ResourceMissing(
    money: bool, uranium: bool, plutonium: bool,
    workers: bool, engineers: bool, scientists: bool, army: bool)
  {
    /** Some category is short. */
    predicate Any()
    {
      money || uranium || plutonium || workers || engineers || scientists || army
    }
  }

  /** A default-constructed record: nothing is missing. */
  function NothingMissing(): (r: ResourceMissing)
    ensures !r.Any()
  {
    ResourceMissing(false, false, false, false, false, false, false)
  }

  /** The four personnel categories. */
  datatype Category = Workers | Scientists | Engineers | Army

  /**
   * The configuration bundle: initial and maximum values, per-person costs and
   * clamps. Only the fields the core reads are kept.
   */
  datatype ResourceConstraints = ResourceConstraints(
    maximumBudget: nat,
    workerDailyCost: nat, workerHiringCost: nat,
    scientistDailyCost: nat, scientistHiringCost: nat,
    engineerDailyCost: nat, engineerHiringCost: nat,
    armyDailyCost: nat, armyHiringCost: nat,
    totalNumbersOfAllPersonnel: nat,
    initialTotalWorkers: nat, maximumTotalWorkers: nat,
    initialTotalScientists: nat, maximumTotalScientists: nat,
    initialTotalEngineers: nat, maximumTotalEngineers: nat,
    initialTotalArmy: nat, maximumTotalArmy: nat,
    initialMoney: nat, initialUranium: nat, initialPlutonium: nat,
    initialMorale: nat, initialSecurity: nat,
    maximalUranium: nat, maximalPlutonium: nat,
    minimalMorale: nat, maximalMorale: nat,
    minimalSecurity: nat, maximalSecurity: nat)
  {
    /** Daily wage of one person of the category. */
    function DailyCost(c: Category): nat
    {
      match c
      case Workers => workerDailyCost
      case Scientists => scientistDailyCost
      case Engineers => engineerDailyCost
      case Army => armyDailyCost
    }

    /** One-time cost of hiring one person of the category. */
    function HiringCost(c: Category): nat
    {
      match c
      case Workers => workerHiringCost
      case Scientists => scientistHiringCost
      case Engineers => engineerHiringCost
      case Army => armyHiringCost
    }

    /** Total head count of the category at construction. */
    function InitialTotal(c: Category): nat
    {
      match c
      case Workers => initialTotalWorkers
      case Scientists => initialTotalScientists
      case Engineers => initialTotalEngineers
      case Army => initialTotalArmy
    }

    /** Largest total the category may be set to. */
    function MaximumTotal(c: Category): nat
    {
      match c
      case Workers => maximumTotalWorkers
      case Scientists => maximumTotalScientists
      case Engineers => maximumTotalEngineers
      case Army => maximumTotalArmy
    }

    /** Sum of the initial totals of the four categories. */
    function InitialPersonnel(): nat
    {
      initialTotalWorkers + initialTotalScientists + initialTotalEngineers + initialTotalArmy
    }

    /** The clamp bounds are ordered, as `std::clamp` demands of its callers. */
    predicate StatBoundsOrdered()
    {
      minimalMorale <= maximalMorale && minimalSecurity <= maximalSecurity
    }

    /** The initial morale and security lie inside their clamp bounds. */
    predicate InitialStatsInBounds()
    {
      minimalMorale <= initialMorale <= maximalMorale && minimalSecurity <= initialSecurity <= maximalSecurity
    }
  }

  /** The bundle with the default initialisers. */
  function DefaultConstraints(): (k: ResourceConstraints)
    ensures k.InitialPersonnel() == k.totalNumbersOfAllPersonnel
    ensures k.StatBoundsOrdered() && k.InitialStatsInBounds()
    ensures forall c :: k.InitialTotal(c) <= k.MaximumTotal(c)
    ensures forall c :: 0 < k.DailyCost(c) == k.HiringCost(c)
    ensures k.minimalMorale == k.minimalSecurity == 0 && k.maximalMorale == k.maximalSecurity == 100
  {
    ResourceConstraints(
      maximumBudget := 1000000000,
      workerDailyCost := 1, workerHiringCost := 1,
      scientistDailyCost := 5, scientistHiringCost := 5,
      engineerDailyCost := 2, engineerHiringCost := 2,
      armyDailyCost := 3, armyHiringCost := 3,
      totalNumbersOfAllPersonnel := 130000,
      initialTotalWorkers := 100000, maximumTotalWorkers := 1000000,
      initialTotalScientists := 3000, maximumTotalScientists := 50000,
      initialTotalEngineers := 7000, maximumTotalEngineers := 100000,
      initialTotalArmy := 20000, maximumTotalArmy := 200000,
      initialMoney := 10000, initialUranium := 0, initialPlutonium := 0,
      initialMorale := 60, initialSecurity := 40,
      maximalUranium := 1000000, maximalPlutonium := 500000,
      minimalMorale := 0, maximalMorale := 100,
      minimalSecurity := 0, maximalSecurity := 100)
  }

  // ---------------------------------------------------------------------------
  // Personnel pools
  // ---------------------------------------------------------------------------

  /** One personnel category: hireable total, currently working, hired since the last day tick. */
  datatype Pool = Pool(total: nat, working: nat, hiredToday: nat)

  /** The four personnel pools. */
  datatype Staff = Staff(workers: Pool, scientists: Pool, engineers: Pool, army: Pool)
  {
    /** The pool of a category. */
    function Get(c: Category): Pool
    {
      match c
      case Workers => workers
      case Scientists => scientists
      case Engineers => engineers
      case Army => army
    }

    /** The staff with the pool of `c` replaced and the other three kept. */
    function With(c: Category, p: Pool): (s: Staff)
      ensures s.Get(c) == p
      ensures forall d :: d != c ==> s.Get(d) == Get(d)
    {
      match c
      case Workers => this.(workers := p)
      case Scientists => this.(scientists := p)
      case Engineers => this.(engineers := p)
      case Army => this.(army := p)
    }

    /** Sum of the totals of all four categories. */
    function Total(): nat
    {
      workers.total + scientists.total + engineers.total + army.total
    }

    /** Sum of the totals of the three categories other than `c`. */
    function TotalExcept(c: Category): (r: nat)
      ensures r + Get(c).total == Total()
    {
      match c
      case Workers => scientists.total + engineers.total + army.total
      case Scientists => workers.total + engineers.total + army.total
      case Engineers => workers.total + scientists.total + army.total
      case Army => workers.total + scientists.total + engineers.total
    }

    /** Every pool with its hired-today counter set back to zero. */
    function ResetHired(): (s: Staff)
      ensures forall c :: s.Get(c) == Get(c).(hiredToday := 0)
    {
      Staff(workers.(hiredToday := 0), scientists.(hiredToday := 0),
            engineers.(hiredToday := 0), army.(hiredToday := 0))
    }

    /** No category has more people working than its total. */
    predicate Staffed()
    {
      forall c :: Get(c).working <= Get(c).total
    }
  }

  /** The daily wage bill: working people of each category times that category's daily cost. */
  function DailyCost(s: Staff, k: ResourceConstraints): nat
  {
    s.workers.working * k.workerDailyCost
    + s.scientists.working * k.scientistDailyCost
    + s.engineers.working * k.engineerDailyCost
    + s.army.working * k.armyDailyCost
  }

  /** Two staffs with the same working counts cost the same per day. */
  lemma DailyCostDependsOnWorking(s: Staff, t: Staff, k: ResourceConstraints)
    requires forall c :: s.Get(c).working == t.Get(c).working
    ensures DailyCost(s, k) == DailyCost(t, k)
  {
    assert s.workers.working == t.workers.working by { assert s.Get(Workers) == s.workers; }
    assert s.scientists.working == t.scientists.working by { assert s.Get(Scientists) == s.scientists; }
    assert s.engineers.working == t.engineers.working by { assert s.Get(Engineers) == s.engineers; }
    assert s.army.working == t.army.working by { assert s.Get(Army) == s.army; }
  }

  // ---------------------------------------------------------------------------
  // Clamped arithmetic
  // ---------------------------------------------------------------------------

  /** `std::min`. */
  function Min(a: int, b: int): int
  {
    if a <= b then a else b
  }

  /** `std::clamp(v, lo, hi)`. */
  function Clamp(v: int, lo: int, hi: int): int
    requires lo <= hi
  {
    if v < lo then lo else if hi < v then hi else v
  }

  /** An increment of a facility stat: the sum clamped to the bounds. */
  function AddStat(v: nat, amount: nat, lo: nat, hi: nat): (r: nat)
    requires lo <= hi
    ensures lo <= r <= hi
    ensures v + amount >= hi ==> r == hi
    ensures lo <= v + amount <= hi ==> r == v + amount
  {
    Clamp(v + amount, lo, hi)
  }

  /**
   * A decrement of a facility stat: a reduction larger than the value gives 0
   * before clamping, so it lands on the minimum.
   */
  function ReduceStat(v: nat, amount: nat, lo: nat, hi: nat): (r: nat)
    requires lo <= hi
    ensures lo <= r <= hi
    ensures amount >= v ==> r == lo
    ensures amount < v && lo <= v - amount <= hi ==> r == v - amount
  {
    Clamp(if amount > v then 0 else v - amount, lo, hi)
  }

  /**
   * The changed-flag of the four stat commands is informative: from a value in
   * bounds an increment changes it iff it is positive and the value is below the
   * maximum, and a decrement iff it is positive and the value is above the minimum.
   */
  lemma StatChangeFlag(v: nat, amount: nat, lo: nat, hi: nat)
    requires lo <= v <= hi
    ensures AddStat(v, amount, lo, hi) != v <==> amount > 0 && v < hi
    ensures ReduceStat(v, amount, lo, hi) != v <==> amount > 0 && v > lo
  {
  }

  /** A decrement undoes an increment that did not hit a bound. */
  lemma ReduceUndoesAdd(v: nat, amount: nat, lo: nat, hi: nat)
    requires lo <= v && v + amount <= hi
    ensures ReduceStat(AddStat(v, amount, lo, hi), amount, lo, hi) == v
  {
  }

  // ---------------------------------------------------------------------------
  // The hire availability check
  // ---------------------------------------------------------------------------

  const TwoToThe32: int := 0x1_0000_0000

  /**
   * `total - working` as compiled: an `unsigned int` subtraction, which wraps
   * modulo 2^32 when a total has been set below the working count.
   */
  function AvailableAsWritten(total: nat, working: nat): (r: nat)
    requires total < TwoToThe32 && working < TwoToThe32
    ensures r < TwoToThe32
    ensures working <= total ==> r == total - working
    ensures total < working ==> r == TwoToThe32 - (working - total)
  {
    (total - working) % TwoToThe32
  }

  /**
   * With 100 at work and the total lowered to 50, the compiled check accepts a
   * hire of 1 and the pool ends with 101 at work against a total of 50; the
   * intended availability (a difference of -50) refuses it.
   */
  lemma UnderflowAdmitsHire()
    ensures AvailableAsWritten(50, 100) >= 1 && !(50 - 100 >= 1)
  {
  }

  /** Whenever a total sits below the working count, the compiled check accepts hires the intended one refuses. */
  lemma {:induction false} UnderflowAdmitsOverstaffing(total: nat, working: nat, count: nat)
    requires total < working < TwoToThe32
    requires 0 < count <= TwoToThe32 - (working - total)
    ensures AvailableAsWritten(total, working) >= count
    ensures !(total - working >= count)
    ensures working + count > total
  {
  }

  // ---------------------------------------------------------------------------
  // The hire affordability check
  // ---------------------------------------------------------------------------

  const TwoToThe64: int := 0x1_0000_0000_0000_0000

  /**
   * The check `m_money >= cost` as compiled: a signed 64-bit balance compared
   * with an unsigned 64-bit cost is first converted to unsigned, so a negative
   * balance reads as a huge one.
   */
  predicate AffordableAsWritten(money: int, cost: nat)
  {
    (if money < 0 then money + TwoToThe64 else money) >= cost
  }

  /** The intended check: the balance covers the cost. */
  predicate Affordable(money: int, cost: nat)
  {
    money >= cost
  }

  /** With a balance of -1, hiring one person at cost 1 passes the compiled check but not the intended one. */
  lemma NegativeBalancePassesHireCheck()
    ensures AffordableAsWritten(-1, 1) && !Affordable(-1, 1)
  {
  }

  /** Any negative 64-bit balance passes the compiled check for every cost below 2^63. */
  lemma {:induction false} AsWrittenIgnoresDebt(money: int, cost: nat)
    requires -TwoToThe64 / 2 <= money < 0 && cost < TwoToThe64 / 2
    ensures AffordableAsWritten(money, cost)
    ensures !Affordable(money, cost)
  {
  }

  // ---------------------------------------------------------------------------
  // The economy state and its daily upkeep
  // ---------------------------------------------------------------------------

  /** Everything the manager holds, as a value. */
  datatype Economy = Economy(staff: Staff, money: int, uranium: nat, plutonium: nat, morale: nat, security: nat)

  /**
   * The daily upkeep: wages are subtracted with no floor; then a non-positive
   * balance costs 2 morale and 1 security, a positive one earns 1 morale; then
   * the hired-today counters are reset.
   */
  function Upkeep(e: Economy, k: ResourceConstraints): Economy
    requires k.StatBoundsOrdered()
  {
    var money := e.money - DailyCost(e.staff, k);
    var e1 := e.(money := money);
    var e2 :=
      if money <= 0 then
        e1.(morale := ReduceStat(e1.morale, 2, k.minimalMorale, k.maximalMorale),
            security := ReduceStat(e1.security, 1, k.minimalSecurity, k.maximalSecurity))
      else
        e1.(morale := AddStat(e1.morale, 1, k.minimalMorale, k.maximalMorale));
    e2.(staff := e2.staff.ResetHired())
  }

  /** What one upkeep does to each part of the economy. */
  lemma UpkeepEffects(e: Economy, k: ResourceConstraints)
    requires k.StatBoundsOrdered()
    ensures Upkeep(e, k).money == e.money - DailyCost(e.staff, k)
    ensures Upkeep(e, k).money <= 0 ==>
      && Upkeep(e, k).morale == ReduceStat(e.morale, 2, k.minimalMorale, k.maximalMorale)
      && Upkeep(e, k).security == ReduceStat(e.security, 1, k.minimalSecurity, k.maximalSecurity)
    ensures Upkeep(e, k).money > 0 ==>
      && Upkeep(e, k).morale == AddStat(e.morale, 1, k.minimalMorale, k.maximalMorale)
      && Upkeep(e, k).security == e.security
    ensures forall c :: Upkeep(e, k).staff.Get(c) == e.staff.Get(c).(hiredToday := 0)
    ensures Upkeep(e, k).uranium == e.uranium && Upkeep(e, k).plutonium == e.plutonium
    ensures k.minimalMorale <= Upkeep(e, k).morale <= k.maximalMorale
  {
  }

  /** `n` successive upkeeps. */
  function UpkeepDays(e: Economy, k: ResourceConstraints, n: nat): Economy
    requires k.StatBoundsOrdered()
  {
    if n == 0 then e else Upkeep(UpkeepDays(e, k, n - 1), k)
  }

  /**
   * Without hiring or firing in between, `n` days of upkeep cost exactly `n`
   * times the daily wage bill, leave every working count and total as it was,
   * and leave no hired-today count behind.
   */
  lemma {:induction false} UpkeepDaysCost(e: Economy, k: ResourceConstraints, n: nat)
    requires k.StatBoundsOrdered()
    ensures UpkeepDays(e, k, n).money == e.money - n * DailyCost(e.staff, k)
    ensures forall c :: UpkeepDays(e, k, n).staff.Get(c).working == e.staff.Get(c).working
    ensures forall c :: UpkeepDays(e, k, n).staff.Get(c).total == e.staff.Get(c).total
    ensures n > 0 ==> forall c :: UpkeepDays(e, k, n).staff.Get(c).hiredToday == 0
  {
    if n > 0 {
      var prev := UpkeepDays(e, k, n - 1);
      UpkeepDaysCost(e, k, n - 1);
      UpkeepEffects(prev, k);
      DailyCostDependsOnWorking(prev.staff, e.staff, k);
      MultipleStep(n, DailyCost(e.staff, k));
    }
  }

  /** One more day adds one more daily bill. */
  lemma MultipleStep(n: nat, d: int)
    requires n > 0
    ensures (n - 1) * d + d == n * d
  {
  }

  // ---------------------------------------------------------------------------
  // The manager
  // ---------------------------------------------------------------------------

  /** The economy object; it subscribes to the clock at construction. */
  class ResourcesManager {
    const constraints: ResourceConstraints
    const dayObserver: TimeSystem.DayObserverHandle
    var staff: Staff
    var money: int
    var uranium: nat
    var plutonium: nat
    var morale: nat
    var security: nat

    /** The manager's invariant: the clamp bounds it uses are ordered. */
    predicate Valid()
    {
      constraints.StatBoundsOrdered()
    }

    /** The whole economy as a value. */
    function Snapshot(): Economy
      reads this
    {
      Economy(staff, money, uranium, plutonium, morale, security)
    }

    /**
     * Takes every total and stat from the constraints with nobody working or
     * hired, and registers its day handler with the clock.
     */
    constructor(k: ResourceConstraints, timeModel: TimeSystem.TimeDataModel)
      modifies timeModel
      ensures constraints == k
      ensures forall c :: staff.Get(c) == Pool(k.InitialTotal(c), 0, 0)
      ensures money == k.initialMoney && uranium == k.initialUranium && plutonium == k.initialPlutonium
      ensures morale == k.initialMorale && security == k.initialSecurity
      ensures fresh(dayObserver)
      ensures timeModel.dayObservers == old(timeModel.dayObservers) + [dayObserver]
      ensures timeModel.State() == old(timeModel.State())
    {
      constraints := k;
      staff := Staff(Pool(k.initialTotalWorkers, 0, 0), Pool(k.initialTotalScientists, 0, 0),
                     Pool(k.initialTotalEngineers, 0, 0), Pool(k.initialTotalArmy, 0, 0));
      money := k.initialMoney;
      uranium := k.initialUranium;
      plutonium := k.initialPlutonium;
      morale := k.initialMorale;
      security := k.initialSecurity;
      dayObserver := new TimeSystem.DayObserverHandle();
      new;
      timeModel.AddDayObserver(dayObserver);
    }

    // --- personnel queries ---

    /** How many more people of the category can be put to work. */
    function AvailableToHire(c: Category): int
      reads this
    {
      staff.Get(c).total - staff.Get(c).working
    }

    /** Today's wages of one category. */
    function DailyCategoryCost(c: Category): nat
      reads this
    {
      staff.Get(c).working * constraints.DailyCost(c)
    }

    /** The whole daily wage bill: the four category costs added up. */
    function DailyPersonnelCost(): (r: nat)
      reads this
      ensures r == DailyCost(staff, constraints)
    {
      DailyCategoryCost(Workers) + DailyCategoryCost(Scientists)
      + DailyCategoryCost(Engineers) + DailyCategoryCost(Army)
    }

    /** The ten-day bill, as the sum of the four ten-day category costs: ten daily bills. */
    function TenDaysPersonnelCost(): (r: nat)
      reads this
      ensures r == 10 * DailyPersonnelCost()
    {
      DailyCategoryCost(Workers) * 10 + DailyCategoryCost(Scientists) * 10
      + DailyCategoryCost(Engineers) * 10 + DailyCategoryCost(Army) * 10
    }

    /** The thirty-day bill, as the sum of the four thirty-day category costs: thirty daily bills. */
    function ThirtyDaysPersonnelCost(): (r: nat)
      reads this
      ensures r == 30 * DailyPersonnelCost()
      ensures r == 3 * TenDaysPersonnelCost()
    {
      DailyCategoryCost(Workers) * 30 + DailyCategoryCost(Scientists) * 30
      + DailyCategoryCost(Engineers) * 30 + DailyCategoryCost(Army) * 30
    }

    /**
     * Whether the four totals together stay within the personnel ceiling, that is,
     * whether re-setting any category to its current total would pass the ceiling test.
     */
    function CheckTotalNumbersOfAllPersonnel(): (r: bool)
      reads this
      ensures r <==> forall c :: staff.Get(c).total + staff.TotalExcept(c) <= constraints.totalNumbersOfAllPersonnel
    {
      assert staff.TotalExcept(Workers) + staff.Get(Workers).total == staff.Total();
      staff.Total() <= constraints.totalNumbersOfAllPersonnel
    }

    // --- personnel commands ---

    /**
     * Puts `count` more people of the category to work when enough are free
     * and the balance covers the hiring cost; otherwise changes nothing.
     */
    method Hire(c: Category, count: nat) returns (ok: bool)
      modifies this
      ensures ok <==> old(AvailableToHire(c)) >= count && Affordable(old(money), count * constraints.HiringCost(c))
      ensures ok ==> Snapshot() == old(Snapshot()).(
        staff := old(staff).With(c, Pool(old(staff.Get(c).total), old(staff.Get(c).working) + count,
                                         old(staff.Get(c).hiredToday) + count)),
        money := old(money) - count * constraints.HiringCost(c))
      ensures !ok ==> Snapshot() == old(Snapshot())
      ensures ok ==> money >= 0 && staff.Get(c).working <= staff.Get(c).total
      ensures old(staff.Staffed()) ==> staff.Staffed()
    {
      var available := AvailableToHire(c);
      var cost := count * constraints.HiringCost(c);
      if available >= count && Affordable(money, cost) {
        var p := staff.Get(c);
        staff := staff.With(c, Pool(p.total, p.working + count, p.hiredToday + count));
        money := money - cost;
        return true;
      }
      return false;
    }

    /** Takes `count` people of the category off work if that many are working; nothing else changes. */
    method Fire(c: Category, count: nat) returns (ok: bool)
      modifies this
      ensures ok <==> old(staff.Get(c).working) >= count
      ensures ok ==> Snapshot() == old(Snapshot()).(
        staff := old(staff).With(c, old(staff.Get(c)).(working := old(staff.Get(c).working) - count)))
      ensures !ok ==> Snapshot() == old(Snapshot())
      ensures old(staff.Staffed()) ==> staff.Staffed()
    {
      var p := staff.Get(c);
      if p.working >= count {
        staff := staff.With(c, p.(working := p.working - count));
        return true;
      }
      return false;
    }

    /**
     * Sets the total of the category unless the new total would break the
     * personnel ceiling or the per-category maximum; nothing else changes.
     */
    method SetTotal(c: Category, count: nat) returns (ok: bool)
      modifies this
      ensures ok <==> count + old(staff.TotalExcept(c)) <= constraints.totalNumbersOfAllPersonnel
                      && count <= constraints.MaximumTotal(c)
      ensures ok ==> Snapshot() == old(Snapshot()).(staff := old(staff).With(c, old(staff.Get(c)).(total := count)))
      ensures !ok ==> Snapshot() == old(Snapshot())
      ensures ok ==> CheckTotalNumbersOfAllPersonnel()
    {
      var otherTotals := staff.TotalExcept(c);
      if count + otherTotals > constraints.totalNumbersOfAllPersonnel {
        return false;
      }
      if count > constraints.MaximumTotal(c) {
        return false;
      }
      staff := staff.With(c, staff.Get(c).(total := count));
      return true;
    }

    /** Sets every hired-today counter to zero. */
    method ResetDailyHiredPersonnelCounts()
      modifies this
      ensures Snapshot() == old(Snapshot()).(staff := old(staff).ResetHired())
    {
      staff := staff.ResetHired();
    }

    // --- money and materials ---

    /** Adds a non-negative amount, capped at the maximum budget; a negative amount is refused. */
    method AddMoney(amount: int) returns (ok: bool)
      modifies this
      ensures ok <==> amount >= 0
      ensures Snapshot() == old(Snapshot()).(money := money)
      ensures money == if ok then Min(old(money) + amount, constraints.maximumBudget) else old(money)
    {
      if amount < 0 {
        return false;
      }
      money := Min(money + amount, constraints.maximumBudget);
      return true;
    }

    /** Spends an amount the balance covers; otherwise changes nothing. An explicit spend never leaves debt. */
    method SpendMoney(amount: int) returns (ok: bool)
      modifies this
      ensures ok <==> old(money) >= amount
      ensures Snapshot() == old(Snapshot()).(money := money)
      ensures money == if ok then old(money) - amount else old(money)
      ensures ok ==> money >= 0
    {
      if money >= amount {
        money := money - amount;
        return true;
      }
      return false;
    }

    /** Adds uranium, capped at the maximal stock; always succeeds. */
    method AddUranium(amount: nat) returns (ok: bool)
      modifies this
      ensures ok
      ensures Snapshot() == old(Snapshot()).(uranium := Min(old(uranium) + amount, constraints.maximalUranium))
    {
      uranium := Min(uranium + amount, constraints.maximalUranium);
      return true;
    }

    /** Spends uranium the stock covers; otherwise changes nothing. */
    method SpendUranium(amount: nat) returns (ok: bool)
      modifies this
      ensures ok <==> old(uranium) >= amount
      ensures Snapshot() == old(Snapshot()).(uranium := if ok then old(uranium) - amount else old(uranium))
    {
      if uranium >= amount {
        uranium := uranium - amount;
        return true;
      }
      return false;
    }

    /** Adds plutonium, capped at the maximal stock; always succeeds. */
    method AddPlutonium(amount: nat) returns (ok: bool)
      modifies this
      ensures ok
      ensures Snapshot() == old(Snapshot()).(plutonium := Min(old(plutonium) + amount, constraints.maximalPlutonium))
    {
      plutonium := Min(plutonium + amount, constraints.maximalPlutonium);
      return true;
    }

    /** Spends plutonium the stock covers; otherwise changes nothing. */
    method SpendPlutonium(amount: nat) returns (ok: bool)
      modifies this
      ensures ok <==> old(plutonium) >= amount
      ensures Snapshot() == old(Snapshot()).(plutonium := if ok then old(plutonium) - amount else old(plutonium))
    {
      if plutonium >= amount {
        plutonium := plutonium - amount;
        return true;
      }
      return false;
    }

    // --- facility stats ---

    /** Raises morale within its bounds; reports whether the stored value changed. */
    method AddMorale(amount: nat) returns (changed: bool)
      requires Valid()
      modifies this
      ensures Snapshot() == old(Snapshot()).(morale := AddStat(old(morale), amount, constraints.minimalMorale, constraints.maximalMorale))
      ensures changed <==> morale != old(morale)
    {
      var oldValue := morale;
      morale := Clamp(morale + amount, constraints.minimalMorale, constraints.maximalMorale);
      return morale != oldValue;
    }

    /** Lowers morale within its bounds; reports whether the stored value changed. */
    method ReduceMorale(amount: nat) returns (changed: bool)
      requires Valid()
      modifies this
      ensures Snapshot() == old(Snapshot()).(morale := ReduceStat(old(morale), amount, constraints.minimalMorale, constraints.maximalMorale))
      ensures changed <==> morale != old(morale)
    {
      var oldValue := morale;
      morale := Clamp(if amount > morale then 0 else morale - amount, constraints.minimalMorale, constraints.maximalMorale);
      return morale != oldValue;
    }

    /** Raises security within its bounds; reports whether the stored value changed. */
    method AddSecurity(amount: nat) returns (changed: bool)
      requires Valid()
      modifies this
      ensures Snapshot() == old(Snapshot()).(security := AddStat(old(security), amount, constraints.minimalSecurity, constraints.maximalSecurity))
      ensures changed <==> security != old(security)
    {
      var oldValue := security;
      security := Clamp(security + amount, constraints.minimalSecurity, constraints.maximalSecurity);
      return security != oldValue;
    }

    /** Lowers security within its bounds; reports whether the stored value changed. */
    method ReduceSecurity(amount: nat) returns (changed: bool)
      requires Valid()
      modifies this
      ensures Snapshot() == old(Snapshot()).(security := ReduceStat(old(security), amount, constraints.minimalSecurity, constraints.maximalSecurity))
      ensures changed <==> security != old(security)
    {
      var oldValue := security;
      security := Clamp(if amount > security then 0 else security - amount, constraints.minimalSecurity, constraints.maximalSecurity);
      return security != oldValue;
    }

    // --- the day handler ---

    /** The clock's day-passed callback: one daily upkeep. */
    method OnDayPassed()
      requires Valid()
      modifies this
      ensures Snapshot() == Upkeep(old(Snapshot()), constraints)
    {
      var dailyCost := DailyCategoryCost(Workers) + DailyCategoryCost(Scientists)
                       + DailyCategoryCost(Engineers) + DailyCategoryCost(Army);
      money := money - dailyCost;
      if money <= 0 {
        var _ := ReduceMorale(2);
        var _ := ReduceSecurity(1);
      } else {
        var _ := AddMorale(1);
      }
      ResetDailyHiredPersonnelCounts();
    }
  }
}
