/**
 * The research graph: a catalogue of technologies keyed by id, each with a
 * prerequisite list and a four-valued state, one optional active-research slot,
 * an availability pass, a guarded start command that checks and charges the
 * economy, and a day handler that advances the active technology.
 *
 * Listener callbacks are modelled as an event log: firing a listener appends
 * one event naming it. Listeners are opaque tokens, kept in registration order.
 */
module Research {
  import opened Wrappers
  import TimeSystem
  import Resources

  datatype TechnologyType = Theory | Engineering

  datatype ResearchState = Locked | Available | InProgress | Completed

  /** A technology record: its catalogue data and its dynamic state. */
  datatype Technology = Technology(
    id: string, name: string, kind: TechnologyType, researchDays: nat,
    prerequisites: seq<string>, description: string,
    moneyCost: nat, uraniumRequired: nat, plutoniumRequired: nat,
    workersRequired: nat, engineersRequired: nat, scientistsRequired: nat,
    armyPersonnelRequired: nat,
    state: ResearchState, progressDays: nat)
  {
    predicate IsCompleted() { state == Completed }
    predicate IsAvailable() { state == Available }
    predicate IsInProgress() { state == InProgress }
  }

  /** The three state tests exclude one another, and none holds exactly of a Locked technology. */
  lemma StateTestsExclusive(t: Technology)
    ensures !(t.IsCompleted() && t.IsAvailable()) && !(t.IsCompleted() && t.IsInProgress())
    ensures !(t.IsAvailable() && t.IsInProgress())
    ensures !t.IsCompleted() && !t.IsAvailable() && !t.IsInProgress() <==> t.state == Locked
  {
  }

  /** A catalogue entry as the loader builds it: its dynamic state at the defaults. */
  function Fresh(t: Technology): (r: Technology)
    ensures r.state == Locked && r.progressDays == 0
    ensures r.(state := t.state, progressDays := t.progressDays) == t
  {
    t.(state := Locked, progressDays := 0)
  }

  /** Forward order of the states: a technology never moves back down it except by reloading. */
  function Rank(s: ResearchState): nat
  {
    match s
    case Locked => 0
    case Available => 1
    case InProgress => 2
    case Completed => 3
  }

  /** Every technology of `before` is in `after`, at a state no lower. */
  predicate NoRegression(before: map<string, Technology>, after: map<string, Technology>)
  {
    forall id :: id in before ==> id in after && Rank(before[id].state) <= Rank(after[id].state)
  }

  /** Every entry is stored under its own id. */
  predicate KeyedById(techs: map<string, Technology>)
  {
    forall id :: id in techs ==> techs[id].id == id
  }

  // ---------------------------------------------------------------------------
  // Availability
  // ---------------------------------------------------------------------------

  /** Every id in the list names a technology of the map that is Completed. */
  predicate AllCompleted(techs: map<string, Technology>, prerequisites: seq<string>)
  {
    forall i :: 0 <= i < |prerequisites| ==> prerequisites[i] in techs && techs[prerequisites[i]].IsCompleted()
  }

  /** Two maps with the same ids and the same completed technologies. */
  predicate SameCompletion(m1: map<string, Technology>, m2: map<string, Technology>)
  {
    m1.Keys == m2.Keys && forall id :: id in m1 ==> (m1[id].IsCompleted() <==> m2[id].IsCompleted())
  }

  /** Whether prerequisites are met depends only on which technologies are completed. */
  lemma SameCompletionSamePrerequisites(m1: map<string, Technology>, m2: map<string, Technology>, p: seq<string>)
    requires SameCompletion(m1, m2)
    ensures AllCompleted(m1, p) <==> AllCompleted(m2, p)
  {
    if AllCompleted(m1, p) {
      forall i | 0 <= i < |p| ensures p[i] in m2 && m2[p[i]].IsCompleted() {
        assert p[i] in m1 && m1[p[i]].IsCompleted();
      }
    }
    if AllCompleted(m2, p) {
      forall i | 0 <= i < |p| ensures p[i] in m1 && m1[p[i]].IsCompleted() {
        assert p[i] in m2 && m2[p[i]].IsCompleted();
      }
    }
  }

  /** One technology after the availability pass has looked at it. */
  function Unlock(techs: map<string, Technology>, t: Technology): Technology
  {
    if t.IsCompleted() || t.IsInProgress() then t
    else if AllCompleted(techs, t.prerequisites) then t.(state := Available)
    else t
  }

  /** The availability pass over the whole map, every entry judged against the map as given. */
  function Availability(techs: map<string, Technology>): (r: map<string, Technology>)
    ensures r.Keys == techs.Keys
  {
    map id | id in techs :: Unlock(techs, techs[id])
  }

  /**
   * What the pass does: it changes only states; Completed and InProgress stay
   * as they are; a technology ends Available iff it was Available or it was
   * Locked with all prerequisites present and completed; and nothing moves
   * backwards.
   */
  lemma AvailabilityEffect(techs: map<string, Technology>)
    ensures SameCompletion(techs, Availability(techs))
    ensures forall id :: id in techs ==>
      Availability(techs)[id] == techs[id].(state := Availability(techs)[id].state)
    ensures forall id :: id in techs ==>
      (Availability(techs)[id].IsInProgress() <==> techs[id].IsInProgress())
    ensures forall id :: id in techs ==>
      (Availability(techs)[id].IsAvailable() <==>
        techs[id].IsAvailable() || (techs[id].state == Locked && AllCompleted(techs, techs[id].prerequisites)))
    ensures NoRegression(techs, Availability(techs))
    ensures KeyedById(techs) ==> KeyedById(Availability(techs))
  {
  }

  /**
   * After the pass no technology is left Locked whose prerequisites are all
   * completed: one pass reaches the fixpoint.
   */
  lemma AvailabilityIsFixpoint(techs: map<string, Technology>)
    ensures forall id :: id in Availability(techs) && Availability(techs)[id].state == Locked ==>
      !AllCompleted(Availability(techs), Availability(techs)[id].prerequisites)
    ensures Availability(Availability(techs)) == Availability(techs)
  {
    var r := Availability(techs);
    AvailabilityEffect(techs);
    forall id | id in r
      ensures r[id].state == Locked ==> !AllCompleted(r, r[id].prerequisites)
      ensures Unlock(r, r[id]) == r[id]
    {
      SameCompletionSamePrerequisites(techs, r, techs[id].prerequisites);
    }
  }

  // ---------------------------------------------------------------------------
  // The catalogue
  // ---------------------------------------------------------------------------

  /** The map after inserting the catalogue entries in order, each replacing an entry with the same id. */
  function Catalogue(techs: map<string, Technology>, entries: seq<Technology>): map<string, Technology>
  {
    if entries == [] then techs
    else
      var last := entries[|entries| - 1];
      Catalogue(techs, entries[..|entries| - 1])[last.id := Fresh(last)]
  }

  /** An id that no catalogue entry carries keeps its old entry, or stays absent. */
  lemma {:induction false} CatalogueUntouched(techs: map<string, Technology>, entries: seq<Technology>, id: string)
    requires forall i :: 0 <= i < |entries| ==> entries[i].id != id
    ensures id in Catalogue(techs, entries) <==> id in techs
    ensures id in techs ==> Catalogue(techs, entries)[id] == techs[id]
  {
    if entries != [] {
      var init := entries[..|entries| - 1];
      assert forall i :: 0 <= i < |init| ==> init[i] == entries[i];
      CatalogueUntouched(techs, init, id);
    }
  }

  /** An id some catalogue entry carries holds the fresh form of the LAST entry with that id. */
  lemma {:induction false} CatalogueLastWins(techs: map<string, Technology>, entries: seq<Technology>, i: nat)
    requires i < |entries|
    requires forall j :: i < j < |entries| ==> entries[j].id != entries[i].id
    ensures entries[i].id in Catalogue(techs, entries)
    ensures Catalogue(techs, entries)[entries[i].id] == Fresh(entries[i])
  {
    var n := |entries| - 1;
    if i < n {
      var init := entries[..n];
      assert forall j :: 0 <= j < n ==> init[j] == entries[j];
      CatalogueLastWins(techs, init, i);
      assert entries[n].id != entries[i].id;
    }
  }

  /** Loading keeps every entry under its own id. */
  lemma {:induction false} CatalogueKeyedById(techs: map<string, Technology>, entries: seq<Technology>)
    requires KeyedById(techs)
    ensures KeyedById(Catalogue(techs, entries))
    ensures techs.Keys <= Catalogue(techs, entries).Keys
  {
    if entries != [] {
      CatalogueKeyedById(techs, entries[..|entries| - 1]);
    }
  }

  // ---------------------------------------------------------------------------
  // Resource requirements
  // ---------------------------------------------------------------------------

  /** The seven shortfalls of the economy against a technology's requirements. */
  function Missing(t: Technology, e: Resources.Economy): Resources.ResourceMissing
  {
    Resources.ResourceMissing(
      money := e.money < t.moneyCost,
      uranium := e.uranium < t.uraniumRequired,
      plutonium := e.plutonium < t.plutoniumRequired,
      workers := e.staff.workers.working < t.workersRequired,
      engineers := e.staff.engineers.working < t.engineersRequired,
      scientists := e.staff.scientists.working < t.scientistsRequired,
      army := e.staff.army.working < t.armyPersonnelRequired)
  }

  /** `richer` holds at least as much of every quantity a start checks as `poorer`. */
  predicate Covers(richer: Resources.Economy, poorer: Resources.Economy)
  {
    && richer.money >= poorer.money && richer.uranium >= poorer.uranium && richer.plutonium >= poorer.plutonium
    && richer.staff.workers.working >= poorer.staff.workers.working
    && richer.staff.engineers.working >= poorer.staff.engineers.working
    && richer.staff.scientists.working >= poorer.staff.scientists.working
    && richer.staff.army.working >= poorer.staff.army.working
  }

  /** A richer economy is missing no more: every flag it raises the poorer one raises too. */
  lemma MissingMonotone(t: Technology, richer: Resources.Economy, poorer: Resources.Economy)
    requires Covers(richer, poorer)
    ensures var r, p := Missing(t, richer), Missing(t, poorer);
      && (r.money ==> p.money) && (r.uranium ==> p.uranium) && (r.plutonium ==> p.plutonium)
      && (r.workers ==> p.workers) && (r.engineers ==> p.engineers)
      && (r.scientists ==> p.scientists) && (r.army ==> p.army)
      && (r.Any() ==> p.Any())
  {
  }

  /** A technology with no requirements is never short of anything in an economy without debt. */
  lemma NoRequirementsNothingMissing(t: Technology, e: Resources.Economy)
    requires t.moneyCost == 0 && t.uraniumRequired == 0 && t.plutoniumRequired == 0
    requires t.workersRequired == 0 && t.engineersRequired == 0 && t.scientistsRequired == 0
    requires t.armyPersonnelRequired == 0
    requires e.money >= 0
    ensures !Missing(t, e).Any()
  {
  }

  /** Nothing is missing iff every requirement is covered. */
  lemma NothingMissingIff(t: Technology, e: Resources.Economy)
    ensures !Missing(t, e).Any() <==>
      && e.money >= t.moneyCost && e.uranium >= t.uraniumRequired && e.plutonium >= t.plutoniumRequired
      && e.staff.workers.working >= t.workersRequired && e.staff.engineers.working >= t.engineersRequired
      && e.staff.scientists.working >= t.scientistsRequired && e.staff.army.working >= t.armyPersonnelRequired
    ensures !Missing(t, e).Any() ==> e.money - t.moneyCost >= 0
  {
  }

  // ---------------------------------------------------------------------------
  // The laboratory state and its two transitions
  // ---------------------------------------------------------------------------

  /** The technologies and the active-research slot. */
  datatype Lab = Lab(techs: map<string, Technology>, active: Option<string>)

  /** The slot, when full, names a known technology that is in progress. */
  predicate SlotInProgress(lab: Lab)
  {
    lab.active.Some? ==> lab.active.value in lab.techs && lab.techs[lab.active.value].IsInProgress()
  }

  /** A start: the new laboratory, the new balance, the verdict, and the shortfall if one was reported. */
  datatype StartStep = StartStep(lab: Lab, money: int, ok: bool, missing: Option<Resources.ResourceMissing>)

  /** The start command on values. */
  function Start(lab: Lab, e: Resources.Economy, id: string): StartStep
  {
    if id !in lab.techs then StartStep(lab, e.money, false, None)
    else
      var t := lab.techs[id];
      if !t.IsAvailable() && !t.IsInProgress() then StartStep(lab, e.money, false, None)
      else
        var missing := Missing(t, e);
        if missing.Any() then StartStep(lab, e.money, false, Some(missing))
        else if t.IsInProgress() then StartStep(Lab(lab.techs, Some(t.id)), e.money, true, None)
        else StartStep(Lab(lab.techs[id := t.(state := InProgress)], Some(t.id)), e.money - t.moneyCost, true, None)
  }

  /**
   * What a start does. It fails with no change for an unknown id or a Locked
   * or Completed technology. It fails with no change, but with the shortfall
   * reported, when anything is missing. Otherwise the technology is InProgress
   * and in the slot; it was charged its money cost iff it was Available, and
   * the charge never drives the balance below zero.
   */
  lemma StartEffect(lab: Lab, e: Resources.Economy, id: string)
    requires KeyedById(lab.techs)
    ensures var s := Start(lab, e, id);
      && (!s.ok ==> s.lab == lab && s.money == e.money)
      && (s.missing.Some? <==>
            id in lab.techs && (lab.techs[id].IsAvailable() || lab.techs[id].IsInProgress()) && Missing(lab.techs[id], e).Any())
      && (s.missing.Some? ==> s.missing.value == Missing(lab.techs[id], e))
      && (s.ok <==> id in lab.techs && (lab.techs[id].IsAvailable() || lab.techs[id].IsInProgress())
                    && !Missing(lab.techs[id], e).Any())
      && (s.ok ==> s.lab.active == Some(id) && s.lab.techs == lab.techs[id := lab.techs[id].(state := InProgress)])
      && (s.ok ==> s.money == e.money - (if lab.techs[id].IsAvailable() then lab.techs[id].moneyCost else 0))
      && (s.ok ==> s.money >= 0)
  {
    if id in lab.techs && lab.techs[id].IsInProgress() {
      assert lab.techs[id := lab.techs[id].(state := InProgress)] == lab.techs;
    }
  }

  /** A start keeps the ids, moves no technology backwards, and keeps the slot invariant. */
  lemma StartKeepsInvariants(lab: Lab, e: Resources.Economy, id: string)
    requires KeyedById(lab.techs)
    ensures var s := Start(lab, e, id);
      KeyedById(s.lab.techs) && NoRegression(lab.techs, s.lab.techs) && (SlotInProgress(lab) ==> SlotInProgress(s.lab))
  {
    StartEffect(lab, e, id);
  }

  /**
   * Starting a second technology while one is running is accepted: the first
   * is charged, the second is charged from what is left, the slot moves to the
   * second, and the first stays InProgress with nothing to advance it.
   */
  lemma {:induction false} SecondStartOverwritesSlot(lab: Lab, e: Resources.Economy, a: string, b: string)
    requires KeyedById(lab.techs) && a != b
    requires a in lab.techs && b in lab.techs && lab.techs[a].IsAvailable() && lab.techs[b].IsAvailable()
    requires !Missing(lab.techs[a], e).Any()
    requires !Missing(lab.techs[b], e.(money := e.money - lab.techs[a].moneyCost)).Any()
    ensures var s1 := Start(lab, e, a);
      var s2 := Start(s1.lab, e.(money := s1.money), b);
      && s1.ok && s2.ok && s2.lab.active == Some(b)
      && s2.lab.techs[a].IsInProgress() && s2.lab.techs[b].IsInProgress()
      && s2.money == e.money - lab.techs[a].moneyCost - lab.techs[b].moneyCost
  {
    StartEffect(lab, e, a);
    var s1 := Start(lab, e, a);
    assert s1.lab.techs[b] == lab.techs[b];
    StartEffect(s1.lab, e.(money := s1.money), b);
  }

  /** A day tick on values: the new laboratory and the technology completed on this tick, if any. */
  datatype TickStep = TickStep(lab: Lab, completed: Option<Technology>)

  /** The day handler on values. */
  function Tick(lab: Lab): TickStep
  {
    match lab.active
    case None => TickStep(lab, None)
    case Some(id) =>
      if id !in lab.techs then TickStep(Lab(lab.techs, None), None)
      else
        var t := lab.techs[id].(progressDays := lab.techs[id].progressDays + 1);
        if t.progressDays >= t.researchDays then
          var done := t.(state := Completed);
          TickStep(Lab(Availability(lab.techs[id := done]), None), Some(done))
        else TickStep(Lab(lab.techs[id := t], lab.active), None)
  }

  /**
   * What a tick does: nothing with an empty slot; with a stale id it only
   * clears the slot; otherwise only the active technology's progress moves, by
   * exactly one, and if that reaches its research days it is Completed, the
   * slot is cleared and dependants are re-evaluated.
   */
  lemma TickEffect(lab: Lab)
    ensures var s := Tick(lab);
      && (lab.active.None? ==> s == TickStep(lab, None))
      && (lab.active.Some? && lab.active.value !in lab.techs ==> s == TickStep(Lab(lab.techs, None), None))
      && (lab.active.Some? && lab.active.value in lab.techs ==>
            var id := lab.active.value;
            var t := lab.techs[id];
            && s.lab.techs.Keys == lab.techs.Keys
            && s.lab.techs[id].progressDays == t.progressDays + 1
            && (forall other :: other in lab.techs && other != id ==>
                  s.lab.techs[other].progressDays == lab.techs[other].progressDays)
            && (s.completed.Some? <==> t.progressDays + 1 >= t.researchDays)
            && (s.completed.Some? ==>
                  s.lab.active.None? && s.lab.techs[id].IsCompleted() && s.completed.value == s.lab.techs[id])
            && (s.completed.None? ==> s.lab.active == lab.active && s.lab.techs == lab.techs[id := t.(progressDays := t.progressDays + 1)]))
  {
    if lab.active.Some? && lab.active.value in lab.techs {
      var id := lab.active.value;
      var t := lab.techs[id].(progressDays := lab.techs[id].progressDays + 1);
      if t.progressDays >= t.researchDays {
        AvailabilityEffect(lab.techs[id := t.(state := Completed)]);
      }
    }
  }

  /** A tick keeps the ids, moves no technology backwards, and keeps the slot invariant. */
  lemma TickKeepsInvariants(lab: Lab)
    requires KeyedById(lab.techs)
    ensures KeyedById(Tick(lab).lab.techs) && NoRegression(lab.techs, Tick(lab).lab.techs)
    ensures SlotInProgress(lab) ==> SlotInProgress(Tick(lab).lab)
  {
    if lab.active.Some? && lab.active.value in lab.techs {
      var id := lab.active.value;
      var t := lab.techs[id].(progressDays := lab.techs[id].progressDays + 1);
      if t.progressDays >= t.researchDays {
        AvailabilityEffect(lab.techs[id := t.(state := Completed)]);
      }
    }
  }

  /** `n` successive ticks. */
  function Ticks(lab: Lab, n: nat): Lab
  {
    if n == 0 then lab else Tick(Ticks(lab, n - 1)).lab
  }

  /** While progress stays below the research days, each tick adds one day and keeps the slot. */
  lemma {:induction false} TicksWhileRunning(lab: Lab, id: string, n: nat)
    requires lab.active == Some(id) && id in lab.techs
    requires n == 0 || lab.techs[id].progressDays + n < lab.techs[id].researchDays
    ensures Ticks(lab, n) == Lab(lab.techs[id := lab.techs[id].(progressDays := lab.techs[id].progressDays + n)], Some(id))
  {
    var t := lab.techs[id];
    if n == 0 {
      assert lab.techs[id := t.(progressDays := t.progressDays)] == lab.techs;
    } else {
      TicksWhileRunning(lab, id, n - 1);
      var prev := Lab(lab.techs[id := t.(progressDays := t.progressDays + n - 1)], Some(id));
      assert Ticks(lab, n) == Tick(prev).lab;
      assert prev.techs[id := prev.techs[id].(progressDays := prev.techs[id].progressDays + 1)]
          == lab.techs[id := t.(progressDays := t.progressDays + n)];
    }
  }

  /** The number of ticks a technology with `days` research days needs from zero progress. */
  function TicksToComplete(days: nat): (m: nat)
    ensures m >= 1 && m >= days && (days > 0 ==> m == days)
  {
    if days == 0 then 1 else days
  }

  /**
   * A technology started from zero progress with R research days is still
   * running after max(R, 1) - 1 ticks: in the slot and InProgress.
   */
  lemma RunsUntilLastDay(lab: Lab, id: string)
    requires lab.active == Some(id) && id in lab.techs
    requires lab.techs[id].progressDays == 0 && lab.techs[id].IsInProgress()
    ensures var before := Ticks(lab, TicksToComplete(lab.techs[id].researchDays) - 1);
      && before.active == Some(id) && id in before.techs && before.techs[id].IsInProgress()
  {
    TicksWhileRunning(lab, id, TicksToComplete(lab.techs[id].researchDays) - 1);
  }

  /**
   * ... and completes on exactly the max(R, 1)-th tick: that tick reports the
   * completion, and after it the technology is Completed and the slot is empty.
   */
  lemma CompletesAfterExactly(lab: Lab, id: string)
    requires lab.active == Some(id) && id in lab.techs
    requires lab.techs[id].progressDays == 0 && lab.techs[id].IsInProgress()
    ensures var m := TicksToComplete(lab.techs[id].researchDays);
      && Tick(Ticks(lab, m - 1)).completed.Some?
      && Ticks(lab, m).active.None? && id in Ticks(lab, m).techs && Ticks(lab, m).techs[id].IsCompleted()
  {
    var t := lab.techs[id];
    var m := TicksToComplete(t.researchDays);
    TicksWhileRunning(lab, id, m - 1);
    var before := Ticks(lab, m - 1);
    assert before.active == Some(id) && before.techs[id] == t.(progressDays := m - 1);
    TickEffect(before);
    assert Ticks(lab, m) == Tick(before).lab;
  }

  // ---------------------------------------------------------------------------
  // Events
  // ---------------------------------------------------------------------------

  /** A listener, identified by its registration token. */
  type ListenerId = nat

  /** One listener invocation. */
  datatype ResearchEvent =
    | ResearchCompleted(listener: ListenerId, tech: Technology)
    | ResourcesMissing(listener: ListenerId, missing: Resources.ResourceMissing, tech: Technology)

  /** Every completion listener, in registration order, called with the technology. */
  function CompletedEvents(listeners: seq<ListenerId>, t: Technology): seq<ResearchEvent>
  {
    if listeners == [] then []
    else CompletedEvents(listeners[..|listeners| - 1], t) + [ResearchCompleted(listeners[|listeners| - 1], t)]
  }

  /** Every missing-resources listener, in registration order, called with the shortfall and the technology. */
  function MissingEvents(listeners: seq<ListenerId>, m: Resources.ResourceMissing, t: Technology): seq<ResearchEvent>
  {
    if listeners == [] then []
    else MissingEvents(listeners[..|listeners| - 1], m, t) + [ResourcesMissing(listeners[|listeners| - 1], m, t)]
  }

  /** Each completion listener fires exactly once, in registration order. */
  lemma {:induction false} CompletedEventsInOrder(listeners: seq<ListenerId>, t: Technology)
    ensures |CompletedEvents(listeners, t)| == |listeners|
    ensures forall i :: 0 <= i < |listeners| ==> CompletedEvents(listeners, t)[i] == ResearchCompleted(listeners[i], t)
  {
    if listeners != [] {
      CompletedEventsInOrder(listeners[..|listeners| - 1], t);
    }
  }

  /** Each missing-resources listener fires exactly once, in registration order. */
  lemma {:induction false} MissingEventsInOrder(listeners: seq<ListenerId>, m: Resources.ResourceMissing, t: Technology)
    ensures |MissingEvents(listeners, m, t)| == |listeners|
    ensures forall i :: 0 <= i < |listeners| ==> MissingEvents(listeners, m, t)[i] == ResourcesMissing(listeners[i], m, t)
  {
    if listeners != [] {
      MissingEventsInOrder(listeners[..|listeners| - 1], m, t);
    }
  }

  /** The listener calls of one tick: the completion listeners, if the tick completed a technology. */
  function DayEvents(lab: Lab, listeners: seq<ListenerId>): seq<ResearchEvent>
  {
    var s := Tick(lab);
    if s.completed.Some? then CompletedEvents(listeners, s.completed.value) else []
  }

  /** The listener calls of `n` successive ticks, in order. */
  function TicksEvents(lab: Lab, listeners: seq<ListenerId>, n: nat): seq<ResearchEvent>
  {
    if n == 0 then [] else TicksEvents(lab, listeners, n - 1) + DayEvents(Ticks(lab, n - 1), listeners)
  }

  /** A log that holds the calls of `n` ticks, extended by the calls of the next tick, holds those of `n + 1`. */
  lemma TicksEventsStep(lab: Lab, listeners: seq<ListenerId>, n: nat, log: seq<ResearchEvent>, before: Lab,
                        logged: seq<ResearchEvent>, after: seq<ResearchEvent>)
    requires before == Ticks(lab, n) && logged == log + TicksEvents(lab, listeners, n)
    requires after == logged + DayEvents(before, listeners)
    ensures after == log + TicksEvents(lab, listeners, n + 1)
  {
  }

  // ---------------------------------------------------------------------------
  // The manager
  // ---------------------------------------------------------------------------

  /** The research object; it subscribes to the clock at construction and charges the economy it was given. */
  class ResearchManager {
    const resources: Resources.ResourcesManager
    const dayObserver: TimeSystem.DayObserverHandle
    var techs: map<string, Technology>
    var active: Option<string>
    var completedListeners: seq<ListenerId>
    var missingListeners: seq<ListenerId>
    var events: seq<ResearchEvent>

    /** Entries are keyed by their own ids. */
    predicate Valid()
      reads this
    {
      KeyedById(techs)
    }

    /** The technologies and the slot as a value. */
    function State(): Lab
      reads this
    {
      Lab(techs, active)
    }

    /** Starts with no technologies, an empty slot and no listeners, and registers its day handler. */
    constructor(timeModel: TimeSystem.TimeDataModel, resources: Resources.ResourcesManager)
      modifies timeModel
      ensures Valid() && this.resources == resources
      ensures techs == map[] && active == None
      ensures completedListeners == [] && missingListeners == [] && events == []
      ensures fresh(dayObserver)
      ensures timeModel.dayObservers == old(timeModel.dayObservers) + [dayObserver]
      ensures timeModel.State() == old(timeModel.State())
    {
      this.resources := resources;
      techs := map[];
      active := None;
      completedListeners := [];
      missingListeners := [];
      events := [];
      dayObserver := new TimeSystem.DayObserverHandle();
      new;
      timeModel.AddDayObserver(dayObserver);
    }

    /** Whether every id in the list names a completed technology; stops at the first that does not. */
    method PrerequisitesDone(prerequisites: seq<string>) returns (allDone: bool)
      ensures allDone <==> AllCompleted(techs, prerequisites)
    {
      allDone := true;
      var i := 0;
      while i < |prerequisites|
        invariant 0 <= i <= |prerequisites|
        invariant AllCompleted(techs, prerequisites[..i])
      {
        var pre := prerequisites[i];
        if pre !in techs || !techs[pre].IsCompleted() {
          allDone := false;
          break;
        }
        assert prerequisites[..i + 1] == prerequisites[..i] + [pre];
        i := i + 1;
      }
      assert allDone ==> prerequisites[..i] == prerequisites;
    }

    /**
     * The availability pass, one entry at a time in no particular order; the
     * result is the same as judging every entry against the map as it was.
     */
    method UpdateAvailability()
      modifies this
      ensures techs == Availability(old(techs))
      ensures active == old(active) && events == old(events)
      ensures completedListeners == old(completedListeners) && missingListeners == old(missingListeners)
    {
      ghost var before := techs;
      var pending := techs.Keys;
      while pending != {}
        invariant pending <= before.Keys && techs.Keys == before.Keys
        invariant forall id :: id in pending ==> techs[id] == before[id]
        invariant forall id :: id in before && id !in pending ==> techs[id] == Unlock(before, before[id])
        invariant SameCompletion(before, techs)
        invariant active == old(active) && events == old(events)
        invariant completedListeners == old(completedListeners) && missingListeners == old(missingListeners)
        decreases pending
      {
        var id :| id in pending;
        var tech := techs[id];
        if !tech.IsCompleted() && !tech.IsInProgress() {
          var allDone := PrerequisitesDone(tech.prerequisites);
          SameCompletionSamePrerequisites(before, techs, tech.prerequisites);
          if allDone {
            techs := techs[id := tech.(state := Available)];
          }
        }
        pending := pending - {id};
      }
    }

    /**
     * Loads a catalogue: each entry, with its dynamic state at the defaults,
     * replaces the entry with the same id; then the availability pass runs.
     */
    method Load(entries: seq<Technology>)
      requires Valid()
      modifies this
      ensures Valid()
      ensures techs == Availability(Catalogue(old(techs), entries))
      ensures active == old(active) && events == old(events)
      ensures completedListeners == old(completedListeners) && missingListeners == old(missingListeners)
    {
      var i := 0;
      while i < |entries|
        invariant 0 <= i <= |entries|
        invariant techs == Catalogue(old(techs), entries[..i])
        invariant active == old(active) && events == old(events)
        invariant completedListeners == old(completedListeners) && missingListeners == old(missingListeners)
      {
        var tech := Fresh(entries[i]);
        assert entries[..i + 1][..i] == entries[..i];
        techs := techs[tech.id := tech];
        i := i + 1;
      }
      assert entries[..i] == entries;
      CatalogueKeyedById(old(techs), entries);
      UpdateAvailability();
      AvailabilityEffect(Catalogue(old(techs), entries));
    }

    /** Whether the id names a completed technology; false for an unknown id. */
    function IsCompleted(id: string): (r: bool)
      reads this
      ensures r ==> id in techs
      ensures r ==> !techs[id].IsAvailable() && !techs[id].IsInProgress()
      ensures id in techs && techs[id].state == Completed ==> r
    {
      id in techs && techs[id].IsCompleted()
    }

    /** Whether the id names an available technology; false for an unknown id. */
    function IsAvailable(id: string): (r: bool)
      reads this
      ensures r ==> id in techs && !IsCompleted(id)
      ensures id in techs && techs[id].state == Available ==> r
    {
      id in techs && techs[id].IsAvailable()
    }

    /** The technology in the slot, or nothing when the slot is empty or names an unknown id. */
    function GetActiveResearch(): (r: Option<Technology>)
      reads this
      ensures r.Some? <==> active.Some? && active.value in techs
      ensures r.Some? ==> r.value == techs[active.value]
      ensures Valid() && r.Some? ==> Some(r.value.id) == active
    {
      match active
      case None => None
      case Some(id) => if id in techs then Some(techs[id]) else None
    }

    /**
     * The start command: fails for an unknown id or a Locked or Completed
     * technology; reports any shortfall to every missing-resources listener and
     * fails; otherwise charges the money cost unless already in progress, marks
     * it InProgress and puts it in the slot.
     */
    method StartResearch(techId: string) returns (ok: bool)
      modifies this, resources
      ensures var s := Start(old(State()), old(resources.Snapshot()), techId);
        && State() == s.lab && ok == s.ok
        && resources.Snapshot() == old(resources.Snapshot()).(money := s.money)
        && events == old(events) + (if s.missing.Some? then MissingEvents(missingListeners, s.missing.value, old(techs)[techId]) else [])
      ensures completedListeners == old(completedListeners) && missingListeners == old(missingListeners)
      ensures old(Valid()) ==> Valid()
    {
      if techId !in techs {
        return false;
      }
      var tech := techs[techId];
      if !tech.IsAvailable() && !tech.IsInProgress() {
        return false;
      }
      var missing := Missing(tech, resources.Snapshot());
      if missing.Any() {
        var i := 0;
        while i < |missingListeners|
          invariant 0 <= i <= |missingListeners|
          invariant events == old(events) + MissingEvents(missingListeners[..i], missing, tech)
          invariant State() == old(State()) && resources.Snapshot() == old(resources.Snapshot())
          invariant completedListeners == old(completedListeners) && missingListeners == old(missingListeners)
        {
          assert missingListeners[..i + 1][..i] == missingListeners[..i];
          events := events + [ResourcesMissing(missingListeners[i], missing, tech)];
          i := i + 1;
        }
        assert missingListeners[..i] == missingListeners;
        return false;
      }
      if !tech.IsInProgress() {
        var _ := resources.SpendMoney(tech.moneyCost);
        techs := techs[techId := tech.(state := InProgress)];
      }
      active := Some(tech.id);
      if old(Valid()) {
        assert tech.id == techId;
      }
      return true;
    }

    /**
     * The clock's day-passed callback: advances the active technology by one
     * day and, when it reaches its research days, completes it, tells every
     * completion listener, clears the slot and re-runs the availability pass.
     */
    method OnDayPassed()
      modifies this
      ensures State() == Tick(old(State())).lab
      ensures events == old(events) + DayEvents(old(State()), completedListeners)
      ensures completedListeners == old(completedListeners) && missingListeners == old(missingListeners)
      ensures old(Valid()) ==> Valid()
    {
      if Valid() {
        TickKeepsInvariants(State());
      }
      if active.None? {
        return;
      }
      var id := active.value;
      if id !in techs {
        active := None;
        return;
      }
      var tech := techs[id].(progressDays := techs[id].progressDays + 1);
      techs := techs[id := tech];
      if tech.progressDays >= tech.researchDays {
        tech := tech.(state := Completed);
        techs := techs[id := tech];
        assert techs == old(techs)[id := tech];
        var i := 0;
        while i < |completedListeners|
          invariant 0 <= i <= |completedListeners|
          invariant techs == old(techs)[id := tech] && active == old(active)
          invariant events == old(events) + CompletedEvents(completedListeners[..i], tech)
          invariant completedListeners == old(completedListeners) && missingListeners == old(missingListeners)
        {
          assert completedListeners[..i + 1][..i] == completedListeners[..i];
          events := events + [ResearchCompleted(completedListeners[i], tech)];
          i := i + 1;
        }
        assert completedListeners[..i] == completedListeners;
        active := None;
        UpdateAvailability();
      }
    }

    /** Registers a completion listener after the existing ones. */
    method AddResearchCompletedListener(listener: ListenerId)
      modifies this
      ensures completedListeners == old(completedListeners) + [listener]
      ensures State() == old(State()) && events == old(events) && missingListeners == old(missingListeners)
    {
      completedListeners := completedListeners + [listener];
    }

    /** Registers a missing-resources listener after the existing ones. */
    method AddResearchMissingResourcesListener(listener: ListenerId)
      modifies this
      ensures missingListeners == old(missingListeners) + [listener]
      ensures State() == old(State()) && events == old(events) && completedListeners == old(completedListeners)
    {
      missingListeners := missingListeners + [listener];
    }
  }
}
