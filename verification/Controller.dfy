/** The engineering controller: bounded pipeline passes with stall detection over
    the fingerprints of their results (tools/pmv3_engineering_controller.py). */
module Controller {

  datatype Blocker = NoBlocker | Blocker(reason: string, detail: string)

  /** The part of the pipeline and supervisor states that the controller looks at. Its
      fingerprint is a digest of exactly these fields and stands here for the record. */
  datatype Progress = Progress(
    pipelineStatus: string, failedWork: seq<string>, failedControl: seq<string>,
    operational: Blocker, critical: Blocker,
    supervisorStatus: string, supervisorReason: string, counts: map<string, int>,
    disposition: string, outstanding: int, active: string)

  datatype Disposition = Complete | Recoverable | WaitingExternal | ControlFailure

  function Count(counts: map<string, int>, name: string): int
  {
    if name in counts then counts[name] else 0
  }

  function RecoverableWork(counts: map<string, int>): int
  {
    Count(counts, "recoverable_source") + Count(counts, "recoverable_transport")
    + Count(counts, "recoverable_validation") + Count(counts, "needs_triage")
  }

  function Classify(p: Progress): (Disposition, string)
  {
    if p.failedControl != [] then (ControlFailure, "control_plane_failure")
    else if p.pipelineStatus == "healthy" then (Complete, "pipeline_healthy")
    else if p.supervisorReason == "internal_recovery_needed" then (Recoverable, "internal_recovery_needed")
    else if p.supervisorReason == "external_or_governed_gate" then (WaitingExternal, "external_or_governed_gate")
    else if p.operational.Blocker? && p.operational.reason == "approved_work_stalled" then
      if RecoverableWork(p.counts) != 0 then (Recoverable, "approved_work_stalled_recoverable")
      else (WaitingExternal, "approved_work_stalled_external")
    else if p.failedWork != [] then (Recoverable, "work_stage_failed")
    else if p.critical.Blocker? then
      if RecoverableWork(p.counts) != 0 then (Recoverable, "critical_support_recoverable")
      else (WaitingExternal, "critical_support_external")
    else (WaitingExternal, "unclassified_governed_gate")
  }

  /** What one pass meets: the production lock before it, the pipeline process, the
      progress it leaves on disk, the production lock after it. */
  datatype Pass = Pass(lockedBefore: bool, broken: bool, progress: Progress, lockedAfter: bool)

  /** The lock before the first pass, and what each pass would meet. */
  datatype World = World(locked: bool, pass: nat -> Pass)

  datatype Entry =
    | Interrupted
    | Overtaken
    | Checked(disposition: Disposition, reason: string, progress: Progress, repeats: nat)

  datatype Status = Running | Deferred | Ended(disposition: Disposition) | BoundedStall

  datatype State = State(status: Status, reason: string, passes: seq<Entry>, reconciliations: nat)

  const TRANSACTION := "production_transaction_active"
  const PROCESS_FAILURE := "pipeline_process_failure"
  const NOT_ADVANCING := "recoverable_state_not_advancing"
  const EXHAUSTED := "max_passes_exhausted"

  function AtLeastOne(n: int): nat
  {
    if n > 1 then n else 1
  }

  // ----- Reference: what a run amounts to, without counters -----

  function Seen(w: World, k: nat): Progress { w.pass(k).progress }

  /** Pass k shows the same progress as the given number of passes before it. */
  ghost predicate Unmoved(w: World, k: nat, limit: nat)
  {
    limit <= k && forall j: nat | k - limit <= j <= k :: Seen(w, j) == Seen(w, k)
  }

  predicate CanGoOn(p: Pass)
  {
    !p.lockedBefore && !p.broken && !p.lockedAfter && Classify(p.progress).0 == Recoverable
  }

  /** Pass k is the last one, whatever the limit of passes is. */
  ghost predicate Stops(w: World, k: nat, limit: nat)
  {
    !CanGoOn(w.pass(k)) || Unmoved(w, k, limit)
  }

  /** For how many passes before k the progress has been what it is at k. */
  function Streak(w: World, k: nat): nat
  {
    if k == 0 || Seen(w, k) != Seen(w, k - 1) then 0 else Streak(w, k - 1) + 1
  }

  function Record(w: World, k: nat): Entry
  {
    var c := Classify(Seen(w, k));
    Checked(c.0, c.1, Seen(w, k), Streak(w, k))
  }

  function Records(w: World, k: nat): seq<Entry>
  {
    seq(k, i requires 0 <= i => Record(w, i))
  }

  /** The state a run ends in when pass k is the first one that stops it. */
  function EndedAt(w: World, k: nat): State
  {
    var p := w.pass(k);
    if p.lockedBefore then State(Deferred, TRANSACTION, Records(w, k), k + 1)
    else if p.broken then State(Ended(ControlFailure), PROCESS_FAILURE, Records(w, k) + [Interrupted], k + 1)
    else if p.lockedAfter then State(Deferred, TRANSACTION, Records(w, k) + [Overtaken], k + 1)
    else if Classify(p.progress).0 == Recoverable then State(BoundedStall, NOT_ADVANCING, Records(w, k + 1), k + 2)
    else State(Ended(Classify(p.progress).0), Classify(p.progress).1, Records(w, k + 1), k + 2)
  }

  ghost predicate FirstStop(w: World, k: nat, limit: nat)
  {
    Stops(w, k, limit) && forall j: nat | j < k :: !Stops(w, j, limit)
  }

  /** What a run amounts to: the first stop within the bound decides, else the bound. */
  ghost predicate Outcome(w: World, max: nat, limit: nat, s: State)
  {
    if w.locked then s == State(Deferred, TRANSACTION, [], 0)
    else if exists k: nat | k < max :: FirstStop(w, k, limit) then
      exists k: nat | k < max :: FirstStop(w, k, limit) && s == EndedAt(w, k)
    else s == State(BoundedStall, EXHAUSTED, Records(w, max), max + 1)
  }

  // ----- The loop -----

  lemma {:induction false} StreakIsUnmoved(w: World, k: nat, limit: nat)
    ensures Streak(w, k) >= limit <==> Unmoved(w, k, limit)
  {
    if limit > 0 && k > 0 {
      StreakIsUnmoved(w, k - 1, limit - 1);
      if Unmoved(w, k, limit) {
        assert Seen(w, k - 1) == Seen(w, k);
        assert Unmoved(w, k - 1, limit - 1);
      }
    }
  }

  method ControllerRun(w: World, maxPasses: int, unchangedLimit: int) returns (s: State)
    ensures Outcome(w, if maxPasses > 1 then maxPasses else 1, if unchangedLimit > 1 then unchangedLimit else 1, s)
  {
    hide Classify, FirstStop;
    if w.locked {
      return State(Deferred, TRANSACTION, [], 0);
    }
    var max, limit := AtLeastOne(maxPasses), AtLeastOne(unchangedLimit);
    s := State(Running, "", [], 1);
    var repeats := 0;
    var k: nat := 0;
    while k < max
      invariant k <= max
      invariant s == State(Running, "", Records(w, k), k + 1)
      invariant k > 0 ==> repeats == Streak(w, k - 1)
      invariant forall j: nat | j < k :: !Stops(w, j, limit)
    {
      var pass := w.pass(k);
      ItIsTheFirst(w, k, limit);
      if pass.lockedBefore {
        return s.(status := Deferred, reason := TRANSACTION);
      }
      if pass.broken {
        return s.(status := Ended(ControlFailure), reason := PROCESS_FAILURE, passes := s.passes + [Interrupted]);
      }
      if pass.lockedAfter {
        return s.(status := Deferred, reason := TRANSACTION, passes := s.passes + [Overtaken]);
      }
      var c := Classify(pass.progress);
      repeats := if k > 0 && pass.progress == w.pass(k - 1).progress then repeats + 1 else 0;
      s := s.(passes := s.passes + [Checked(c.0, c.1, pass.progress, repeats)], reconciliations := k + 2);
      assert s.passes == Records(w, k + 1);
      StreakIsUnmoved(w, k, limit);
      if c.0 != Recoverable {
        return s.(status := Ended(c.0), reason := c.1);
      }
      if repeats >= limit {
        return s.(status := BoundedStall, reason := NOT_ADVANCING);
      }
      k := k + 1;
    }
    NoneStopped(w, max, limit);
    s := s.(status := BoundedStall, reason := EXHAUSTED);
  }

  lemma ItIsTheFirst(w: World, k: nat, limit: nat)
    requires forall j: nat | j < k :: !Stops(w, j, limit)
    ensures Stops(w, k, limit) ==> FirstStop(w, k, limit)
  {
  }

  lemma NoneStopped(w: World, max: nat, limit: nat)
    requires forall j: nat | j < max :: !Stops(w, j, limit)
    ensures !exists k: nat | k < max :: FirstStop(w, k, limit)
  {
  }

  lemma OneFirstStop(w: World, j: nat, k: nat, limit: nat)
    requires FirstStop(w, j, limit) && FirstStop(w, k, limit)
    ensures j == k
  {
  }

  // ----- What the outcome says -----

  /** A run is never left running and starts at most as many pipelines as it may; the
      integration queue is reconciled once, and once more after each pass that ended
      with its process done and the production lock free. */
  lemma OutcomeIsBounded(w: World, max: nat, limit: nat, s: State)
    requires max > 0 && Outcome(w, max, limit, s)
    ensures s.status != Running && |s.passes| <= max
    ensures forall i | 0 <= i < |s.passes| - 1 :: s.passes[i].Checked? && s.passes[i].disposition == Recoverable
    ensures s.reconciliations == if w.locked then 0
                                 else 1 + |s.passes| - if s.passes != [] && !s.passes[|s.passes| - 1].Checked? then 1 else 0
  {
    hide Unmoved, Classify;
    if !w.locked {
      if exists k: nat | k < max :: FirstStop(w, k, limit) {
        var k: nat :| k < max && FirstStop(w, k, limit) && s == EndedAt(w, k);
        forall j: nat | j < k ensures CanGoOn(w.pass(j)) { assert !Stops(w, j, limit); }
      } else {
        forall j: nat | j < max ensures CanGoOn(w.pass(j)) { SomeStopIsFirst(w, j, limit); }
      }
    }
  }

  /** If some pass stops the run, one of the passes up to it is the first to do so. */
  lemma {:induction false} SomeStopIsFirst(w: World, k: nat, limit: nat)
    ensures Stops(w, k, limit) ==> exists j: nat | j <= k :: FirstStop(w, j, limit)
  {
    if Stops(w, k, limit) && !FirstStop(w, k, limit) {
      var i: nat :| i < k && Stops(w, i, limit);
      SomeStopIsFirst(w, i, limit);
    }
  }

  /** The passes up to k could all go on, and k is the first that shows no movement. */
  ghost predicate StallsAt(w: World, k: nat, limit: nat)
  {
    && (forall j: nat | j <= k :: CanGoOn(w.pass(j)))
    && Unmoved(w, k, limit)
    && forall j: nat | j < k :: !Unmoved(w, j, limit)
  }

  predicate ReportsStall(s: State)
  {
    s.status == BoundedStall && s.reason == NOT_ADVANCING
  }

  /** Stall detection is exact: a run reports that it is not advancing exactly when some
      pass within the bound was, together with the limit of passes before it, recoverable
      with one and the same progress, and no earlier pass was; the run then ends there. */
  lemma StallIsExact(w: World, max: nat, limit: nat, s: State)
    requires Outcome(w, max, limit, s)
    ensures ReportsStall(s) <==> !w.locked && exists k: nat | k < max :: StallsAt(w, k, limit)
    ensures forall k: nat | k < max && StallsAt(w, k, limit) && !w.locked :: s.passes == Records(w, k + 1)
  {
    hide Unmoved, Classify, Records;
    if !w.locked {
      forall k: nat | k < max && StallsAt(w, k, limit)
        ensures FirstStop(w, k, limit) && s == EndedAt(w, k) && ReportsStall(s) && s.passes == Records(w, k + 1)
      {
        assert FirstStop(w, k, limit);
        var j: nat :| j < max && FirstStop(w, j, limit) && s == EndedAt(w, j);
        OneFirstStop(w, j, k, limit);
      }
      if ReportsStall(s) {
        TheTwoStallsDiffer();
        var k: nat :| k < max && FirstStop(w, k, limit) && s == EndedAt(w, k);
        forall j: nat | j < k ensures CanGoOn(w.pass(j)) && !Unmoved(w, j, limit) { assert !Stops(w, j, limit); }
        assert StallsAt(w, k, limit);
      }
    }
  }

  lemma TheTwoStallsDiffer()
    ensures NOT_ADVANCING != EXHAUSTED
  {
  }

  /** With a bound of passes no larger than the limit of repetitions, a stall is never
      recognised, whatever the passes show. */
  lemma SmallBoundsHideStalls(w: World, max: nat, limit: nat, s: State)
    requires max <= limit && Outcome(w, max, limit, s)
    ensures !ReportsStall(s)
  {
    StallIsExact(w, max, limit, s);
    hide Outcome;
  }

  /** Progress that alternates is never recognised as a stall: when every pass is
      recoverable and differs from the one before, the run uses up its whole bound,
      even if it only goes back and forth between two states. */
  lemma AlternationIsNotAStall(w: World, max: nat, limit: nat, s: State)
    requires Outcome(w, max, limit, s) && !w.locked && limit > 0
    requires forall k: nat | k < max :: CanGoOn(w.pass(k))
    requires forall k: nat | k + 1 < max :: Seen(w, k + 1) != Seen(w, k)
    ensures s.status == BoundedStall && s.reason == EXHAUSTED && |s.passes| == max
  {
    hide Classify, Records;
    forall k: nat | k < max ensures !Stops(w, k, limit) {
      assert k > 0 ==> Seen(w, (k - 1) + 1) != Seen(w, k - 1);
      MovedPass(w, k, limit);
    }
    NoneStopped(w, max, limit);
    assert |Records(w, max)| == max by { RecordsLength(w, max); }
  }

  lemma MovedPass(w: World, k: nat, limit: nat)
    requires limit > 0 && (k > 0 ==> Seen(w, k) != Seen(w, k - 1))
    ensures !Unmoved(w, k, limit)
  {
    if k >= limit {
      var j: nat := k - 1;
      assert k - limit <= j <= k && Seen(w, j) != Seen(w, k);
    }
  }

  lemma RecordsLength(w: World, k: nat)
    ensures |Records(w, k)| == k
  {
  }

  /** A run is complete exactly when it stops at a healthy pass without control
      failures, before and after which the production lock was free. */
  lemma CompletionIsExact(w: World, max: nat, limit: nat, s: State)
    requires Outcome(w, max, limit, s)
    ensures s.status == Ended(Complete) <==>
              !w.locked && exists k: nat | k < max ::
                && FirstStop(w, k, limit)
                && !w.pass(k).lockedBefore && !w.pass(k).broken && !w.pass(k).lockedAfter
                && Seen(w, k).failedControl == [] && Seen(w, k).pipelineStatus == "healthy"
  {
    hide Stops, Records;
    if !w.locked {
      forall k: nat, j: nat | FirstStop(w, j, limit) && FirstStop(w, k, limit) ensures j == k {
        OneFirstStop(w, j, k, limit);
      }
      forall p ensures Classify(p).0 == Complete <==> p.failedControl == [] && p.pipelineStatus == "healthy" {
        CompleteMeansHealthy(p);
      }
    }
    hide Classify;
  }

  lemma CompleteMeansHealthy(p: Progress)
    ensures Classify(p).0 == Complete <==> p.failedControl == [] && p.pipelineStatus == "healthy"
  {
  }

  ghost predicate CountsWork(p: Progress)
  {
    (if "recoverable_source" in p.counts then p.counts["recoverable_source"] else 0)
    + (if "recoverable_transport" in p.counts then p.counts["recoverable_transport"] else 0)
    + (if "recoverable_validation" in p.counts then p.counts["recoverable_validation"] else 0)
    + (if "needs_triage" in p.counts then p.counts["needs_triage"] else 0) != 0
  }

  /** Approved work is stalled for an operational reason. */
  ghost predicate Stalled(p: Progress)
  {
    p.operational.Blocker? && p.operational.reason == "approved_work_stalled"
  }

  /** Neither the pipeline nor the supervisor has decided the matter. */
  ghost predicate Undecided(p: Progress)
  {
    && p.failedControl == [] && p.pipelineStatus != "healthy"
    && p.supervisorReason != "internal_recovery_needed" && p.supervisorReason != "external_or_governed_gate"
  }

  /** Which passes the controller can go on from, which ones it waits on, which fail. */
  lemma DispositionsAreExact(p: Progress)
    ensures Classify(p).0 == ControlFailure <==> p.failedControl != []
    ensures Classify(p).0 == Complete <==> p.failedControl == [] && p.pipelineStatus == "healthy"
    ensures Classify(p).0 == Recoverable <==>
              || (p.failedControl == [] && p.pipelineStatus != "healthy" && p.supervisorReason == "internal_recovery_needed")
              || (Undecided(p) && Stalled(p) && CountsWork(p))
              || (Undecided(p) && !Stalled(p) && p.failedWork != [])
              || (Undecided(p) && !Stalled(p) && p.failedWork == [] && p.critical.Blocker? && CountsWork(p))
    ensures Classify(p).0 == WaitingExternal <==>
              || (p.failedControl == [] && p.pipelineStatus != "healthy" && p.supervisorReason == "external_or_governed_gate")
              || (Undecided(p) && Stalled(p) && !CountsWork(p))
              || (Undecided(p) && !Stalled(p) && p.failedWork == [] && !(p.critical.Blocker? && CountsWork(p)))
  {
    CountsAreExact(p);
    hide CountsWork, RecoverableWork;
  }

  lemma CountsAreExact(p: Progress)
    ensures RecoverableWork(p.counts) != 0 <==> CountsWork(p)
  {
  }

  /** The reason that goes with each disposition. */
  lemma ReasonsAreExact(p: Progress)
    ensures Classify(p).0 == ControlFailure ==> Classify(p).1 == "control_plane_failure"
    ensures Classify(p).0 == Complete ==> Classify(p).1 == "pipeline_healthy"
    ensures Undecided(p) && Stalled(p) ==>
              Classify(p).1 == if CountsWork(p) then "approved_work_stalled_recoverable" else "approved_work_stalled_external"
    ensures Undecided(p) && !Stalled(p) ==>
              Classify(p).1 == if p.failedWork != [] then "work_stage_failed"
                               else if p.critical == NoBlocker then "unclassified_governed_gate"
                               else if CountsWork(p) then "critical_support_recoverable" else "critical_support_external"
    ensures p.failedControl == [] && p.pipelineStatus != "healthy" && !Undecided(p) ==> Classify(p).1 == p.supervisorReason
  {
    CountsAreExact(p);
    hide CountsWork, RecoverableWork;
  }

  /** How a run ends: by what its last pass met, or by its bound. */
  ghost predicate EndsBy(w: World, k: nat, s: State)
  {
    var p := w.pass(k);
    if p.lockedBefore then s.status == Deferred && s.reason == "production_transaction_active" && |s.passes| == k
    else
      && |s.passes| == k + 1
      && if p.broken then
           s.status == Ended(ControlFailure) && s.reason == "pipeline_process_failure" && s.passes[k] == Interrupted
         else if p.lockedAfter then
           s.status == Deferred && s.reason == "production_transaction_active" && s.passes[k] == Overtaken
         else if Classify(p.progress).0 != Recoverable then
           s.status == Ended(Classify(p.progress).0) && s.reason == Classify(p.progress).1 && s.passes[k].Checked?
         else s.status == BoundedStall && s.reason == "recoverable_state_not_advancing" && s.passes[k].Checked?
  }

  /** The end of a run, in the words of its passes. */
  lemma EndingsAreExact(w: World, max: nat, limit: nat, s: State)
    requires max > 0 && Outcome(w, max, limit, s)
    ensures w.locked ==> s == State(Deferred, "production_transaction_active", [], 0)
    ensures !w.locked ==>
              || (exists k: nat | k < max :: FirstStop(w, k, limit) && EndsBy(w, k, s))
              || ((forall k: nat | k < max :: !Stops(w, k, limit))
                  && s.status == BoundedStall && s.reason == "max_passes_exhausted" && |s.passes| == max)
    ensures forall i | 0 <= i < |s.passes| && s.passes[i].Checked? :: RecordsPass(w, i, s.passes[i])
  {
    hide Unmoved, Classify;
    if !w.locked {
      if exists k: nat | k < max :: FirstStop(w, k, limit) {
        var k: nat :| k < max && FirstStop(w, k, limit) && s == EndedAt(w, k);
        assert EndsBy(w, k, s);
      } else {
        forall k: nat | k < max ensures !Stops(w, k, limit) { SomeStopIsFirst(w, k, limit); }
      }
      forall i | 0 <= i < |s.passes| && s.passes[i].Checked? ensures RecordsPass(w, i, s.passes[i]) {
        RecordsAreExact(w, i);
      }
    }
  }

  /** What is noted of a pass: what it showed, how that is classified, and for how many
      passes before it the same was shown, no more and no fewer. */
  ghost predicate RecordsPass(w: World, i: nat, e: Entry)
  {
    && e.Checked? && e.progress == Seen(w, i)
    && e.disposition == Classify(Seen(w, i)).0 && e.reason == Classify(Seen(w, i)).1
    && Unmoved(w, i, e.repeats) && !Unmoved(w, i, e.repeats + 1)
  }

  lemma RecordsAreExact(w: World, i: nat)
    ensures RecordsPass(w, i, Record(w, i))
  {
    StreakIsUnmoved(w, i, Streak(w, i));
    StreakIsUnmoved(w, i, Streak(w, i) + 1);
    hide Unmoved, Classify;
  }
}
