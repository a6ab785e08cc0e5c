/** The tick of the self-heal watchdog: detect, recover within a budget kept across
    ticks, update the recurrence memory, ask the owner when the budget is used up
    (tools/jason_self_heal_watchdog.py). */
module Watchdog {
  import opened Wrappers
  import opened Incidents

  datatype Status = Absent | Healthy | Recovered | RepairRequired | OwnerActionRequired

  /** What a tick reads back from the state file. The fingerprint is a digest of the
      sorted failures and stands here for the set of failures itself. */
  datatype State = State(status: Status, fingerprint: Option<set<string>>, attempts: nat)

  const NO_STATE := State(Absent, None, 0)

  /** What the world shows during one tick: the failures detected, the failures a second
      detection would find after a recovery, whether storage archiving made progress, the time. */
  datatype Sighting = Sighting(detected: set<string>, after: set<string>, archiving: bool, at: int)

  function Budget(maxAttempts: int): nat
  {
    if maxAttempts > 1 then maxAttempts else 1
  }

  function Carried(s: State, failures: set<string>): nat
  {
    if s.fingerprint == Some(failures) then s.attempts else 0
  }

  predicate Recovers(s: State, x: Sighting, max: int)
  {
    x.detected != {} && Carried(s, x.detected) < Budget(max)
  }

  function Attempts(s: State, x: Sighting, max: int): nat
  {
    Carried(s, x.detected) + if Recovers(s, x, max) then 1 else 0
  }

  /** The failures still there when the tick ends. */
  function Remaining(s: State, x: Sighting, max: int): set<string>
  {
    if Recovers(s, x, max) then x.after else x.detected
  }

  function IncidentsOf(s: State, x: Sighting, max: int): map<Family, set<string>>
  {
    Correlated(Symptoms(Remaining(s, x, max)))
  }

  predicate Escalates(s: State, x: Sighting, max: int, fam: Family)
    requires fam in IncidentsOf(s, x, max)
  {
    && Attempts(s, x, max) >= Budget(max)
    && !(fam == HostStorageCapacity && x.archiving)
    && NeedsOwner(fam, IncidentsOf(s, x, max)[fam])
  }

  function Escalations(s: State, x: Sighting, max: int): set<Family>
  {
    set fam | fam in IncidentsOf(s, x, max) && Escalates(s, x, max, fam)
  }

  function Step(s: State, x: Sighting, max: int): State
  {
    if x.detected == {} then State(Healthy, None, 0)
    else if Remaining(s, x, max) == {} then State(Recovered, Some(x.detected), Attempts(s, x, max))
    else State(if Escalations(s, x, max) != {} then OwnerActionRequired else RepairRequired,
               Some(Remaining(s, x, max)), Attempts(s, x, max))
  }

  /** What the tick tells the recurrence memory. */
  function Reported(s: State, x: Sighting, max: int): Tick
  {
    Tick(IncidentsOf(s, x, max).Keys, x.at)
  }

  class SelfHeal {
    var state: State
    const memory: IssueMemory

    constructor ()
      ensures state == NO_STATE && fresh(memory) && memory.families == map[]
    {
      state := NO_STATE;
      memory := new IssueMemory();
    }

    /** One tick: the new state, the new memory, and what was done. */
    method Run(x: Sighting, max: int) returns (recovered: bool, escalated: set<Family>)
      modifies this, memory
      ensures state == Step(old(state), x, max)
      ensures memory.families == Observe(old(memory.families), Reported(old(state), x, max))
      ensures recovered == Recovers(old(state), x, max)
      ensures escalated == Escalations(old(state), x, max)
    {
      hide NeedsOwner, Correlated, Symptoms, Observe, RepairLevel;
      ghost var was := state;
      recovered, escalated := false, {};
      var failures := x.detected;
      if failures == {} {
        assert IncidentsOf(was, x, max) == map[] by { NothingToReport(); }
        var none: seq<Family> := [];
        var _ := memory.Update(none, x.at);
        assert IncidentsOf(was, x, max).Keys == set f | f in none;
        state := State(Healthy, None, 0);
        return;
      }
      var fingerprint := failures;
      var attempts := if state.fingerprint == Some(fingerprint) then state.attempts else 0;
      if attempts < Budget(max) {
        recovered := true;
        attempts := attempts + 1;
        if x.after == {} {
          assert IncidentsOf(was, x, max) == map[] by { NothingToReport(); }
          var none: seq<Family> := [];
          var _ := memory.Update(none, x.at);
          assert IncidentsOf(was, x, max).Keys == set f | f in none;
          state := State(Recovered, Some(fingerprint), attempts);
          return;
        }
        failures := x.after;
        fingerprint := failures;
      }
      var incidents := Correlated(Symptoms(failures));
      assert incidents == IncidentsOf(was, x, max);
      var listed := Listing(incidents.Keys);
      var _ := memory.Update(listed, x.at);
      escalated := Escalate(incidents, listed, attempts >= Budget(max), x.archiving);
      state := State(if escalated != {} then OwnerActionRequired else RepairRequired, Some(fingerprint), attempts);
    }

    /** The families, of those listed, that the owner is asked about. */
    method Escalate(incidents: map<Family, set<string>>, listed: seq<Family>, exhausted: bool, archiving: bool)
      returns (escalated: set<Family>)
      requires forall fam | fam in listed :: fam in incidents
      ensures escalated == set fam | fam in listed && exhausted && !(fam == HostStorageCapacity && archiving)
                                     && NeedsOwner(fam, incidents[fam])
    {
      hide NeedsOwner, RepairLevel;
      escalated := {};
      for i := 0 to |listed|
        invariant escalated == set fam | fam in listed[..i] && exhausted && !(fam == HostStorageCapacity && archiving)
                                         && NeedsOwner(fam, incidents[fam])
      {
        var symptoms := Listing(incidents[listed[i]]);
        OwnerExactly(listed[i], symptoms);
        var level := RepairLevel(listed[i], symptoms);
        assert listed[..i + 1] == listed[..i] + [listed[i]];
        if exhausted && !(listed[i] == HostStorageCapacity && archiving) && !Automatic(level) {
          escalated := escalated + {listed[i]};
        }
      }
      assert listed[..|listed|] == listed;
    }
  }

  /** Some listing of a set. The source sorts; nothing proved here depends on the order. */
  method Listing<T(==)>(elements: set<T>) returns (listed: seq<T>)
    ensures (set e | e in listed) == elements
  {
    listed := [];
    var todo := elements;
    while todo != {}
      invariant (set e | e in listed) + todo == elements
      decreases |todo|
    {
      var e :| e in todo;
      listed := listed + [e];
      todo := todo - {e};
    }
  }

  lemma NothingToReport()
    ensures Correlated(Symptoms({})) == map[]
  {
    NothingGrouped();
    assert Symptoms({}) == {};
  }

  // ----- Whole histories of ticks -----

  function StateAfter(s: State, xs: seq<Sighting>, max: int): State
  {
    if xs == [] then s
    else Step(StateAfter(s, xs[..|xs| - 1], max), xs[|xs| - 1], max)
  }

  /** How often recovery ran. */
  function Recoveries(s: State, xs: seq<Sighting>, max: int): nat
  {
    if xs == [] then 0
    else
      var front := xs[..|xs| - 1];
      Recoveries(s, front, max) + if Recovers(StateAfter(s, front, max), xs[|xs| - 1], max) then 1 else 0
  }

  function Reports(s: State, xs: seq<Sighting>, max: int): seq<Tick>
  {
    if xs == [] then []
    else
      var front := xs[..|xs| - 1];
      Reports(s, front, max) + [Reported(StateAfter(s, front, max), xs[|xs| - 1], max)]
  }

  /** The recoveries still allowed for these failures. */
  function Left(s: State, failures: set<string>, max: int): nat
  {
    if Carried(s, failures) < Budget(max) then Budget(max) - Carried(s, failures) else 0
  }

  /** The recovery left other failures behind: neither none nor the same ones. */
  predicate Shifted(x: Sighting)
  {
    x.after != {} && x.after != x.detected
  }

  function Shifts(xs: seq<Sighting>): nat
  {
    if xs == [] then 0 else Shifts(xs[..|xs| - 1]) + if Shifted(xs[|xs| - 1]) then 1 else 0
  }

  predicate Same(xs: seq<Sighting>, failures: set<string>)
  {
    forall i | 0 <= i < |xs| :: xs[i].detected == failures
  }

  /** What one tick leaves of the budget: a recovery uses one attempt unless it shifts
      the failures, in which case the whole budget is back. */
  lemma BudgetOfOneTick(s: State, x: Sighting, max: int)
    requires x.detected != {}
    ensures Recovers(s, x, max) <==> Left(s, x.detected, max) > 0
    ensures Recovers(s, x, max) ==>
              Left(Step(s, x, max), x.detected, max)
              == if Shifted(x) then Budget(max) else Left(s, x.detected, max) - 1
    ensures !Recovers(s, x, max) ==> Left(Step(s, x, max), x.detected, max) == 0
  {
    hide Escalations, IncidentsOf;
  }

  /** However many ticks see the same failures, recovery runs at most as often as the
      budget left allows, plus one budget for each tick that shifted them. */
  lemma {:induction false} RecoveryBudget(s: State, xs: seq<Sighting>, max: int, failures: set<string>)
    requires failures != {} && Same(xs, failures)
    ensures Recoveries(s, xs, max) + Left(StateAfter(s, xs, max), failures, max)
            <= Left(s, failures, max) + Budget(max) * Shifts(xs)
  {
    hide Step, Recovers, Left, Budget;
    if xs != [] {
      var n := |xs| - 1;
      var front := xs[..n];
      RecoveryBudget(s, front, max, failures);
      BudgetOfOneTick(StateAfter(s, front, max), xs[n], max);
      assert Budget(max) * (Shifts(front) + 1) == Budget(max) * Shifts(front) + Budget(max);
    }
  }

  /** Without shifts recovery runs on the first ticks, as long as the budget lasts, and
      then never again: ticks that ended recovered use up the budget too. */
  lemma {:induction false} RecoveriesAreTheBudget(s: State, xs: seq<Sighting>, max: int, failures: set<string>)
    requires failures != {} && Same(xs, failures)
    requires forall i | 0 <= i < |xs| :: !Shifted(xs[i])
    ensures Recoveries(s, xs, max) == if |xs| <= Left(s, failures, max) then |xs| else Left(s, failures, max)
    ensures Left(StateAfter(s, xs, max), failures, max) == Left(s, failures, max) - Recoveries(s, xs, max)
  {
    hide Step, Recovers, Left, Budget;
    if xs != [] {
      var n := |xs| - 1;
      RecoveriesAreTheBudget(s, xs[..n], max, failures);
      BudgetOfOneTick(StateAfter(s, xs[..n], max), xs[n], max);
    }
  }

  /** The budget does not bound recovery when every recovery shifts the failures:
      recovery then runs on every tick, however many there are. */
  lemma {:induction false} ShiftingDefeatsTheBudget(s: State, xs: seq<Sighting>, max: int, failures: set<string>)
    requires failures != {} && Same(xs, failures) && Left(s, failures, max) > 0
    requires forall i | 0 <= i < |xs| :: Shifted(xs[i])
    ensures Recoveries(s, xs, max) == |xs|
    ensures Left(StateAfter(s, xs, max), failures, max) > 0
  {
    hide Step, Recovers, Left;
    if xs != [] {
      var n := |xs| - 1;
      ShiftingDefeatsTheBudget(s, xs[..n], max, failures);
      BudgetOfOneTick(StateAfter(s, xs[..n], max), xs[n], max);
    }
  }

  /** What one tick leaves in the state file and tells the memory: attempts are carried only
      for the same failures, recovery runs while they are fewer than allowed, and the state
      is healthy, recovered, or in need of repair or of the owner. */
  lemma TicksAreExact(s: State, x: Sighting, max: int)
    ensures var allowed := if max > 1 then max else 1;
            var carried := if s.fingerprint == Some(x.detected) then s.attempts else 0;
            var recovers := x.detected != {} && carried < allowed;
            var left := if recovers then x.after else x.detected;
            var attempts := if recovers then carried + 1 else carried;
            && (Recovers(s, x, max) <==> recovers)
            && Step(s, x, max) ==
               (if x.detected == {} then State(Healthy, None, 0)
                else if left == {} then State(Recovered, Some(x.detected), attempts)
                else State(if Escalations(s, x, max) == {} then RepairRequired else OwnerActionRequired, Some(left), attempts))
            && Reported(s, x, max).at == x.at
            && (forall fam :: fam in Reported(s, x, max).present <==>
                  && Violated(Symptoms(left), fam)
                  && !((fam == RuntimeHealth || fam == ServiceHealth) && Violated(Symptoms(left), ProductionConvergence)))
            && (forall fam | fam in Escalations(s, x, max) ::
                  attempts >= allowed && !(fam == HostStorageCapacity && x.archiving))
  {
    hide Correlated, Symptoms, NeedsOwner, Violated;
    forall fam ensures fam in Reported(s, x, max).present <==>
        && Violated(Symptoms(Remaining(s, x, max)), fam)
        && !((fam == RuntimeHealth || fam == ServiceHealth) && Violated(Symptoms(Remaining(s, x, max)), ProductionConvergence))
    {
      CorrelatedFamilies(Symptoms(Remaining(s, x, max)), fam);
    }
    hide Escalates;
    EscalationsAreLate(s, x, max);
  }

  lemma EscalationsAreLate(s: State, x: Sighting, max: int)
    ensures forall fam | fam in Escalations(s, x, max) ::
              Attempts(s, x, max) >= Budget(max) && !(fam == HostStorageCapacity && x.archiving)
  {
    hide IncidentsOf, NeedsOwner, Attempts, Budget;
  }

  /** A healthy tick gives the whole budget back, for every set of failures. */
  lemma HealthyResetsTheBudget(s: State, x: Sighting, max: int, failures: set<string>)
    requires x.detected == {}
    ensures Left(Step(s, x, max), failures, max) == Budget(max)
  {
  }

  /** A failure the owner is to decide about, given the archiving in progress. */
  ghost predicate OwnersCase(f: string, archiving: bool)
  {
    if FailureFamily(f) == HostStorageCapacity then !archiving
    else Carries(f, OUTSIDE) || Carries(f, DISRUPTIVE)
  }

  /** The owner is asked exactly when the attempts are used up and a failure that is
      still there is the owner's case. */
  lemma OwnerIsAskedExactly(s: State, x: Sighting, max: int)
    ensures Escalations(s, x, max) != {} <==>
              && Attempts(s, x, max) >= Budget(max)
              && exists f | f in Symptoms(Remaining(s, x, max)) :: OwnersCase(f, x.archiving)
  {
    hide Correlated, Carries, FailureFamily, Symptoms, Recovers, Attempts, NeedsOwner, OwnersCase;
    var left := Symptoms(Remaining(s, x, max));
    if Escalations(s, x, max) != {} {
      var fam :| fam in Escalations(s, x, max);
      var f := OwnersFailure(left, fam, x.archiving);
    }
    if Attempts(s, x, max) >= Budget(max) && exists f | f in left :: OwnersCase(f, x.archiving) {
      var f :| f in left && OwnersCase(f, x.archiving);
      OwnersFamily(left, f, x.archiving);
      assert Root(f, left) in Escalations(s, x, max);
    }
  }

  lemma OwnersFamily(symptoms: set<string>, f: string, archiving: bool)
    requires f in symptoms && OwnersCase(f, archiving)
    ensures var fam := Root(f, symptoms);
            && fam in Correlated(symptoms)
            && !(fam == HostStorageCapacity && archiving)
            && NeedsOwner(fam, Correlated(symptoms)[fam])
  {
    hide Correlated, Carries, FailureFamily;
    CorrelationPartitions(symptoms, Root(f, symptoms), f);
  }

  /** The state on disk says that the owner was asked exactly when the owner was. */
  lemma OwnerIsAskedInState(s: State, x: Sighting, max: int)
    ensures Step(s, x, max).status == OwnerActionRequired <==> Escalations(s, x, max) != {}
  {
    hide Correlated, Symptoms, Attempts, Escalates;
    if Remaining(s, x, max) == {} {
      NothingToReport();
    }
  }

  lemma OwnersFailure(symptoms: set<string>, fam: Family, archiving: bool) returns (f: string)
    requires fam in Correlated(symptoms)
    requires !(fam == HostStorageCapacity && archiving) && NeedsOwner(fam, Correlated(symptoms)[fam])
    ensures f in symptoms && OwnersCase(f, archiving)
  {
    hide Correlated, Carries, FailureFamily;
    if fam == HostStorageCapacity {
      CorrelationHasNoEmptyIncident(symptoms, fam);
      f :| f in Correlated(symptoms)[fam];
    } else {
      f :| f in Correlated(symptoms)[fam] && (Carries(f, OUTSIDE) || Carries(f, DISRUPTIVE));
    }
    CorrelationPartitions(symptoms, fam, f);
  }

  /** What the memory hears while recovery clears the same failures every time: nothing
      as long as the budget lasts, then every tick. */
  lemma {:induction false} ReportsOfClearedFailures(
    s: State, xs: seq<Sighting>, max: int, failures: set<string>, i: nat)
    requires failures != {} && Same(xs, failures) && i < |xs|
    requires forall k | 0 <= k < |xs| :: xs[k].after == {}
    ensures |Reports(s, xs, max)| == |xs|
    ensures Reports(s, xs, max)[i].present
            == if i < Left(s, failures, max) then {} else Correlated(Symptoms(failures)).Keys
  {
    var n := |xs| - 1;
    var front := xs[..n];
    ReportsHaveOnePerTick(s, front, max);
    if i < n {
      ReportsOfClearedFailures(s, front, max, failures, i);
    } else {
      RecoveriesAreTheBudget(s, front, max, failures);
      BudgetOfOneTick(StateAfter(s, front, max), xs[n], max);
      NothingToReport();
    }
    hide Step, Left, Recovers, Correlated, Symptoms;
  }

  lemma {:induction false} ReportsHaveOnePerTick(s: State, xs: seq<Sighting>, max: int)
    ensures |Reports(s, xs, max)| == |xs|
  {
    if xs != [] {
      ReportsHaveOnePerTick(s, xs[..|xs| - 1], max);
    }
  }

  lemma PresentFromThenOn(h: seq<Tick>, fam: Family, first: nat)
    requires forall i | 0 <= i < |h| :: fam in h[i].present <==> i >= first
    ensures fam in MemoryAfter(h) <==> |h| > first
    ensures fam in MemoryAfter(h) ==> MemoryAfter(h)[fam].occurrences == 1
  {
    MemoryRefinesHistory(h, fam);
    if |h| > first {
      assert fam in h[first].present;
      assert Onsets(h, fam) == {first};
    }
    hide MemoryAfter, FirstSeen, LastSeen;
  }

  /** A failure that returns at every tick and is cleared every time leaves no trace in
      the memory until the budget is used up, and from then on it counts as one single
      occurrence: recoveries that work are never counted as recurrences. */
  lemma ClearedFailuresCountOnce(s: State, xs: seq<Sighting>, max: int, failures: set<string>, fam: Family)
    requires failures != {} && Same(xs, failures)
    requires forall k | 0 <= k < |xs| :: xs[k].after == {}
    requires fam in Correlated(Symptoms(failures))
    ensures fam in MemoryAfter(Reports(s, xs, max)) <==> |xs| > Left(s, failures, max)
    ensures fam in MemoryAfter(Reports(s, xs, max)) ==> MemoryAfter(Reports(s, xs, max))[fam].occurrences == 1
  {
    hide Left, Correlated, Symptoms, MemoryAfter, Reports;
    var h := Reports(s, xs, max);
    ReportsHaveOnePerTick(s, xs, max);
    forall i | 0 <= i < |xs| ensures fam in h[i].present <==> i >= Left(s, failures, max) {
      ReportsOfClearedFailures(s, xs, max, failures, i);
    }
    PresentFromThenOn(h, fam, Left(s, failures, max));
  }
}
