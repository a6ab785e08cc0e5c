/** The host-side repair runner: deploy an exact candidate, verify it, roll back,
    label the outcome (tools/autonomous_repair_host_runner.py). */
module RepairRunner {
  import opened Wrappers
  import Text

  /** What the host answers to one external command: how it ended, what an inspection
      of the health prints, and the revision label a deployment script leaves behind. */
  datatype Ending = Fine | Exit | Raised(name: string)

  datatype Answer = Answer(ending: Ending, health: string, stamp: string)

  type Oracle = nat -> Answer

  /** The production host: the revision label of the live container, and how many
      commands were run. Only deployment scripts change the label. */
  datatype Host = Host(stamp: string, clock: nat)

  datatype Failure = Coded(code: string) | Other(name: string)

  datatype Reply<+T> = Value(value: T) | Error(failure: Failure)

  const COMMAND_FAILED := "COMMAND_FAILED"
  const POST_DEPLOY_VERIFICATION_FAILED := "POST_DEPLOY_VERIFICATION_FAILED"
  const ROLLBACK_VERIFICATION_FAILED := "ROLLBACK_VERIFICATION_FAILED"
  const LIVE_REVISION_UNVERIFIED := "LIVE_REVISION_UNVERIFIED"
  const PRODUCTION_NOT_HEALTHY := "PRODUCTION_NOT_HEALTHY"
  const ROLLBACK_REVISION_MISMATCH := "ROLLBACK_REVISION_MISMATCH"

  const WAIT_ATTEMPTS: nat := 30

  /** A request with the verdicts of the checks the runner makes on it: its own form,
      the git and release-gate checks, and the building of the candidate image. */
  datatype Request = Request(
    candidate: string, rollback: string,
    form: Option<Failure>, checks: Option<Failure>, build: Option<Failure>)

  datatype Verdict = Succeeded | PreflightPassed | Rejected | Failed

  datatype Result = Result(verdict: Verdict, failure: Option<Failure>, liveRevision: string, rollbackPerformed: bool)

  // ----- Commands -----

  predicate IsHex(c: char) { '0' <= c <= '9' || 'a' <= c <= 'f' }

  predicate IsSha(s: string)
  {
    |s| == 40 && forall c | c in s :: IsHex(c)
  }

  function Revision(stamp: string): string
  {
    Text.Lower(Text.Strip(stamp))
  }

  function Trouble(ending: Ending): Option<Failure>
  {
    match ending
    case Fine => None
    case Exit => Some(Coded(COMMAND_FAILED))
    case Raised(name) => Some(Other(name))
  }

  function After(h: Host): Host { h.(clock := h.clock + 1) }

  function LiveRevision(h: Host, answers: Oracle): Reply<string>
  {
    match Trouble(answers(h.clock).ending)
    case Some(f) => Error(f)
    case None =>
      if IsSha(Revision(h.stamp)) then Value(Revision(h.stamp)) else Error(Coded(LIVE_REVISION_UNVERIFIED))
  }

  function LiveHealth(h: Host, answers: Oracle): Reply<string>
  {
    match Trouble(answers(h.clock).ending)
    case Some(f) => Error(f)
    case None => Value(Text.Lower(Text.Strip(answers(h.clock).health)))
  }

  /** A deployment script may leave any label behind, whether it succeeds or not. */
  function Scripted(h: Host, answers: Oracle): Host
  {
    Host(answers(h.clock).stamp, h.clock + 1)
  }

  const HEALTHY := "healthy"

  datatype Wait = Wait(host: Host, failure: Option<Failure>)

  function WaitHealthy(h: Host, answers: Oracle, attempts: nat): Wait
    decreases attempts
  {
    if attempts == 0 then Wait(h, Some(Coded(PRODUCTION_NOT_HEALTHY)))
    else
      match LiveHealth(h, answers)
      case Error(f) => Wait(After(h), Some(f))
      case Value(health) =>
        if health == HEALTHY then Wait(After(h), None) else WaitHealthy(After(h), answers, attempts - 1)
  }

  function WaitRevision(h: Host, answers: Oracle, expected: string, attempts: nat): Wait
    decreases attempts
  {
    if attempts == 0 then Wait(h, Some(Coded(POST_DEPLOY_VERIFICATION_FAILED)))
    else
      match LiveRevision(h, answers)
      case Error(f) => Wait(After(h), Some(f))
      case Value(revision) =>
        match LiveHealth(After(h), answers)
        case Error(f) => Wait(After(After(h)), Some(f))
        case Value(health) =>
          if revision != expected then Wait(After(After(h)), Some(Coded(POST_DEPLOY_VERIFICATION_FAILED)))
          else if health == HEALTHY then Wait(After(After(h)), None)
          else WaitRevision(After(After(h)), answers, expected, attempts - 1)
  }

  // ----- One request -----

  /** One request carried out: the host afterwards, the result, and what really happened. */
  datatype Run = Run(host: Host, result: Result, deployed: bool, rolledBack: bool)

  predicate HasSuffix(s: string, suffix: string)
  {
    |suffix| <= |s| && s[|s| - |suffix|..] == suffix
  }

  /** The label of an error is a test on the last letters of its code. */
  function Labelled(f: Failure): Verdict
  {
    match f
    case Coded(code) => if HasSuffix(code, "FAILED") then Failed else Rejected
    case Other(_) => Failed
  }

  function Refusal(f: Failure): Result { Result(Labelled(f), Some(f), "", false) }

  function Compensated(h: Host, answers: Oracle, q: Request, cause: Failure): Run
  {
    var unverified := Refusal(Coded(ROLLBACK_VERIFICATION_FAILED));
    var script := answers(h.clock).ending;
    var rolled := Scripted(h, answers);
    if Trouble(script).Some? then Run(rolled, unverified, true, true)
    else
      var w := WaitRevision(rolled, answers, q.rollback, WAIT_ATTEMPTS);
      Run(w.host, if w.failure == None then Refusal(cause) else unverified, true, true)
  }

  function Deployed(h: Host, answers: Oracle, q: Request): Run
  {
    match Trouble(answers(h.clock).ending)
    case Some(f) => Run(Scripted(h, answers), Refusal(f), false, false)
    case None =>
      var w := WaitRevision(Scripted(h, answers), answers, q.candidate, WAIT_ATTEMPTS);
      match w.failure
      case None => Run(w.host, Result(Succeeded, None, q.candidate, false), true, false)
      case Some(f) => Compensated(w.host, answers, q, f)
  }

  function Admitted(h: Host, answers: Oracle, q: Request, preflight: bool): Run
  {
    if q.checks.Some? then Run(h, Refusal(q.checks.value), false, false)
    else if preflight then Run(h, Result(PreflightPassed, None, q.rollback, false), false, false)
    else if q.build.Some? then Run(h, Refusal(q.build.value), false, false)
    else Deployed(h, answers, q)
  }

  function Processed(h: Host, answers: Oracle, q: Request, preflight: bool): Run
  {
    if q.form.Some? then Run(h, Refusal(q.form.value), false, false)
    else
      match LiveRevision(h, answers)
      case Error(f) => Run(After(h), Refusal(f), false, false)
      case Value(live) =>
        var w := WaitHealthy(After(h), answers, WAIT_ATTEMPTS);
        if w.failure.Some? then Run(w.host, Refusal(w.failure.value), false, false)
        else if live != q.rollback then Run(w.host, Refusal(Coded(ROLLBACK_REVISION_MISMATCH)), false, false)
        else Admitted(w.host, answers, q, preflight)
  }

  // ----- The runner -----

  class Runner {
    var stamp: string
    var clock: nat
    const answers: Oracle

    constructor (stamp: string, answers: Oracle)
      ensures Now() == Host(stamp, 0) && this.answers == answers
    {
      this.stamp, this.clock, this.answers := stamp, 0, answers;
    }

    ghost function Now(): Host
      reads this
    {
      Host(stamp, clock)
    }

    method ReadRevision() returns (r: Reply<string>)
      modifies `clock
      ensures Now() == After(old(Now())) && r == LiveRevision(old(Now()), answers)
    {
      var answer := answers(clock);
      clock := clock + 1;
      match answer.ending
      case Exit => r := Error(Coded(COMMAND_FAILED));
      case Raised(name) => r := Error(Other(name));
      case Fine =>
        var value := Text.Lower(Text.Strip(stamp));
        r := if IsSha(value) then Value(value) else Error(Coded(LIVE_REVISION_UNVERIFIED));
    }

    method ReadHealth() returns (r: Reply<string>)
      modifies `clock
      ensures Now() == After(old(Now())) && r == LiveHealth(old(Now()), answers)
    {
      var answer := answers(clock);
      clock := clock + 1;
      match answer.ending
      case Exit => r := Error(Coded(COMMAND_FAILED));
      case Raised(name) => r := Error(Other(name));
      case Fine => r := Value(Text.Lower(Text.Strip(answer.health)));
    }

    method RunScript() returns (trouble: Option<Failure>)
      modifies this
      ensures Now() == Scripted(old(Now()), answers) && trouble == Trouble(answers(old(clock)).ending)
    {
      var answer := answers(clock);
      trouble := Trouble(answer.ending);
      stamp, clock := answer.stamp, clock + 1;
    }

    method AwaitHealthy(attempts: nat) returns (failure: Option<Failure>)
      modifies `clock
      ensures Wait(Now(), failure) == WaitHealthy(old(Now()), answers, attempts)
    {
      hide LiveHealth;
      var left := attempts;
      while left > 0
        invariant WaitHealthy(old(Now()), answers, attempts) == WaitHealthy(Now(), answers, left)
        decreases left
      {
        var health := ReadHealth();
        if health.Error? {
          return Some(health.failure);
        }
        if health.value == HEALTHY {
          return None;
        }
        left := left - 1;
      }
      failure := Some(Coded(PRODUCTION_NOT_HEALTHY));
    }

    method AwaitRevision(expected: string, attempts: nat) returns (failure: Option<Failure>)
      modifies `clock
      ensures Wait(Now(), failure) == WaitRevision(old(Now()), answers, expected, attempts)
    {
      hide LiveHealth, LiveRevision;
      var left := attempts;
      while left > 0
        invariant WaitRevision(old(Now()), answers, expected, attempts) == WaitRevision(Now(), answers, expected, left)
        decreases left
      {
        var revision := ReadRevision();
        if revision.Error? {
          return Some(revision.failure);
        }
        var health := ReadHealth();
        if health.Error? {
          return Some(health.failure);
        }
        if revision.value != expected {
          return Some(Coded(POST_DEPLOY_VERIFICATION_FAILED));
        }
        if health.value == HEALTHY {
          return None;
        }
        left := left - 1;
      }
      failure := Some(Coded(POST_DEPLOY_VERIFICATION_FAILED));
    }

    /** Deploy and verify; on any failure after the deployment, roll back and verify that. */
    method Promote(q: Request) returns (result: Result, ghost deployed: bool, ghost rolledBack: bool)
      modifies this
      ensures Run(Now(), result, deployed, rolledBack) == Deployed(old(Now()), answers, q)
    {
      hide WaitRevision, Trouble, Labelled;
      deployed, rolledBack := false, false;
      var trouble := RunScript();
      if trouble.Some? {
        return Refusal(trouble.value), false, false;
      }
      deployed := true;
      var failure := AwaitRevision(q.candidate, WAIT_ATTEMPTS);
      if failure == None {
        return Result(Succeeded, None, q.candidate, false), true, false;
      }
      rolledBack := true;
      trouble := RunScript();
      var verified := trouble == None;
      if verified {
        var lost := AwaitRevision(q.rollback, WAIT_ATTEMPTS);
        verified := lost == None;
      }
      result := Refusal(if verified then failure.value else Coded(ROLLBACK_VERIFICATION_FAILED));
    }

    method Process(q: Request, preflight: bool) returns (result: Result, ghost deployed: bool, ghost rolledBack: bool)
      modifies this
      ensures Run(Now(), result, deployed, rolledBack) == Processed(old(Now()), answers, q, preflight)
      ensures FiledExactly(old(Now()), answers, q, preflight, result)
      ensures ShowsLabel(result, old(stamp))
    {
      hide FiledExactly, ShowsLabel;
      RequestsAreFiledExactly(Now(), answers, q, preflight);
      PreflightsShowTheLabel(Now(), answers, q, preflight);
      hide WaitHealthy, Deployed, Trouble, Labelled, LiveRevision;
      deployed, rolledBack := false, false;
      if q.form.Some? {
        return Refusal(q.form.value), false, false;
      }
      var live := ReadRevision();
      if live.Error? {
        return Refusal(live.failure), false, false;
      }
      var failure := AwaitHealthy(WAIT_ATTEMPTS);
      if failure.Some? {
        return Refusal(failure.value), false, false;
      }
      if live.value != q.rollback {
        return Refusal(Coded(ROLLBACK_REVISION_MISMATCH)), false, false;
      }
      if q.checks.Some? {
        return Refusal(q.checks.value), false, false;
      }
      if preflight {
        return Result(PreflightPassed, None, q.rollback, false), false, false;
      }
      if q.build.Some? {
        return Refusal(q.build.value), false, false;
      }
      result, deployed, rolledBack := Promote(q);
    }
  }

  // ----- What the waiting establishes -----

  /** Waiting never changes production and runs at most two commands a round. */
  lemma {:induction false} WaitOnlyLooks(h: Host, answers: Oracle, expected: string, attempts: nat)
    ensures var w := WaitRevision(h, answers, expected, attempts);
            w.host.stamp == h.stamp && h.clock <= w.host.clock <= h.clock + 2 * attempts
    decreases attempts
  {
    hide LiveRevision, LiveHealth;
    if attempts > 0 {
      WaitOnlyLooks(After(After(h)), answers, expected, attempts - 1);
    }
  }

  lemma {:induction false} WaitHealthyOnlyLooks(h: Host, answers: Oracle, attempts: nat)
    ensures WaitHealthy(h, answers, attempts).host.stamp == h.stamp
    decreases attempts
  {
    hide LiveHealth;
    if attempts > 0 {
      WaitHealthyOnlyLooks(After(h), answers, attempts - 1);
    }
  }

  /** Both commands of the i-th round from here end well. */
  ghost predicate RoundFine(clock: nat, answers: Oracle, i: nat)
  {
    answers(clock + 2 * i).ending == Fine && answers(clock + 2 * i + 1).ending == Fine
  }

  /** The i-th round from here is the first that can answer, and sees the host healthy. */
  ghost predicate HealthyAt(clock: nat, answers: Oracle, k: nat)
  {
    && (forall i: nat | i <= k :: RoundFine(clock, answers, i))
    && Text.Lower(Text.Strip(answers(clock + 2 * k + 1).health)) == HEALTHY
  }

  ghost predicate HealthyWithin(clock: nat, answers: Oracle, attempts: nat)
  {
    exists k: nat | k < attempts :: HealthyAt(clock, answers, k)
  }

  lemma LaterRound(clock: nat, answers: Oracle, k: nat)
    ensures HealthyAt(clock, answers, k + 1) <==> RoundFine(clock, answers, 0) && HealthyAt(clock + 2, answers, k)
  {
    var next := clock + 2;
    if RoundFine(clock, answers, 0) && HealthyAt(next, answers, k) {
      forall i: nat | i <= k + 1 ensures RoundFine(clock, answers, i) {
        if i > 0 {
          assert RoundFine(next, answers, i - 1);
        }
      }
    }
    if HealthyAt(clock, answers, k + 1) {
      forall i: nat | i <= k ensures RoundFine(next, answers, i) {
        assert RoundFine(clock, answers, i + 1);
      }
    }
  }

  lemma FirstRound(clock: nat, answers: Oracle, attempts: nat)
    requires attempts > 0
    ensures HealthyWithin(clock, answers, attempts) <==>
              && RoundFine(clock, answers, 0)
              && (HealthyAt(clock, answers, 0) || HealthyWithin(clock + 2, answers, attempts - 1))
  {
    if HealthyWithin(clock, answers, attempts) {
      var k: nat :| k < attempts && HealthyAt(clock, answers, k);
      if k > 0 {
        LaterRound(clock, answers, k - 1);
      }
    }
    if RoundFine(clock, answers, 0) && HealthyWithin(clock + 2, answers, attempts - 1) {
      var k: nat :| k < attempts - 1 && HealthyAt(clock + 2, answers, k);
      LaterRound(clock, answers, k);
    }
  }

  /** The wait succeeds exactly when production carries the expected revision and some
      round within the bound sees it healthy, all commands so far having ended well. */
  lemma {:induction false} WaitSucceedsExactly(h: Host, answers: Oracle, expected: string, attempts: nat)
    ensures WaitRevision(h, answers, expected, attempts).failure == None <==>
              && Revision(h.stamp) == expected && IsSha(expected)
              && HealthyWithin(h.clock, answers, attempts)
    decreases attempts
  {
    hide IsSha, Revision, HealthyWithin, Text.Lower, Text.Strip;
    if attempts > 0 {
      FirstRound(h.clock, answers, attempts);
      WaitSucceedsExactly(After(After(h)), answers, expected, attempts - 1);
    } else {
      assert !HealthyWithin(h.clock, answers, 0) by { NeverWithinNone(h.clock, answers); }
    }
  }

  lemma NeverWithinNone(clock: nat, answers: Oracle)
    ensures !HealthyWithin(clock, answers, 0)
  {
  }

  // ----- What a result says about production -----

  lemma CodesEndAsWritten()
    ensures forall name :: Labelled(Other(name)) == Failed
    ensures Labelled(Coded(COMMAND_FAILED)) == Failed
    ensures Labelled(Coded(ROLLBACK_VERIFICATION_FAILED)) == Failed
    ensures Labelled(Coded(POST_DEPLOY_VERIFICATION_FAILED)) == Failed
    ensures Labelled(Coded(LIVE_REVISION_UNVERIFIED)) == Rejected
    ensures Labelled(Coded(PRODUCTION_NOT_HEALTHY)) == Rejected
    ensures Labelled(Coded(ROLLBACK_REVISION_MISMATCH)) == Rejected
  {
  }

  predicate SameRevision(h: Host, g: Host)
  {
    Revision(h.stamp) == Revision(g.stamp)
  }

  /** What is known of production after a promotion, from the result alone. */
  ghost predicate Truthful(h: Host, q: Request, run: Run)
  {
    && (run.result.verdict == Succeeded ==> Revision(run.host.stamp) == q.candidate && IsSha(q.candidate))
    && (run.result.verdict in {Rejected, PreflightPassed} ==> Revision(run.host.stamp) == q.rollback || run.host.stamp == h.stamp)
    && (run.result.failure.Some? && Conclusive(run.result.failure.value) ==>
          Revision(run.host.stamp) == q.rollback || run.host.stamp == h.stamp)
    && (run.rolledBack ==> run.deployed && run.result.failure.Some?)
    && !run.result.rollbackPerformed
  }

  /** Every error but three kinds: a failed command, a rollback that could not be
      verified, and an exception from outside the runner. */
  predicate Conclusive(f: Failure)
  {
    f.Coded? && f.code != COMMAND_FAILED && f.code != ROLLBACK_VERIFICATION_FAILED
  }

  lemma CompensatedIsTruthful(h: Host, g: Host, answers: Oracle, q: Request, cause: Failure)
    ensures Truthful(h, q, Compensated(g, answers, q, cause))
  {
    hide WaitRevision, Labelled, Revision;
    CodesEndAsWritten();
    var rolled := Scripted(g, answers);
    WaitOnlyLooks(rolled, answers, q.rollback, WAIT_ATTEMPTS);
    WaitSucceedsExactly(rolled, answers, q.rollback, WAIT_ATTEMPTS);
    LabelIsNeverSuccess(cause);
  }

  lemma LabelIsNeverSuccess(f: Failure)
    ensures Labelled(f) in {Rejected, Failed}
  {
  }

  lemma DeployedIsTruthful(h: Host, answers: Oracle, q: Request)
    ensures Truthful(h, q, Deployed(h, answers, q))
  {
    hide WaitRevision, Labelled, Revision, Compensated, IsSha;
    CodesEndAsWritten();
    var script := Scripted(h, answers);
    match Trouble(answers(h.clock).ending)
    case Some(f) =>
    case None =>
      WaitOnlyLooks(script, answers, q.candidate, WAIT_ATTEMPTS);
      WaitSucceedsExactly(script, answers, q.candidate, WAIT_ATTEMPTS);
      var w := WaitRevision(script, answers, q.candidate, WAIT_ATTEMPTS);
      if w.failure.Some? {
        CompensatedIsTruthful(h, w.host, answers, q, w.failure.value);
      }
  }

  /** If no other actor deploys: `succeeded` means that production carries the
      candidate; `rejected`, and every error but three kinds, means that production
      carries the revision it carried before the request, even when a deployment and
      a rollback happened in between. The result never admits a rollback. */
  lemma ResultsTellTheTruth(h: Host, answers: Oracle, q: Request, preflight: bool)
    ensures var run := Processed(h, answers, q, preflight);
            && (run.result.verdict == Succeeded ==>
                  Revision(run.host.stamp) == q.candidate && IsSha(q.candidate) && Revision(h.stamp) == q.rollback)
            && (run.result.verdict in {Rejected, PreflightPassed} ==> SameRevision(run.host, h))
            && (run.result.failure.Some? && Conclusive(run.result.failure.value) ==> SameRevision(run.host, h))
            && (run.rolledBack ==> run.deployed && run.result.failure.Some?)
            && !run.result.rollbackPerformed
  {
    hide WaitHealthy, Labelled, Revision, Deployed, IsSha;
    WaitHealthyOnlyLooks(After(h), answers, WAIT_ATTEMPTS);
    var w := WaitHealthy(After(h), answers, WAIT_ATTEMPTS);
    DeployedIsTruthful(w.host, answers, q);
    forall f ensures Labelled(f) in {Rejected, Failed} { LabelIsNeverSuccess(f); }
  }

  /** A promotion succeeds exactly when the script ends well, leaves the candidate in
      production, and a round of the bounded wait sees it healthy. */
  lemma PromotionSucceedsExactly(h: Host, answers: Oracle, q: Request)
    ensures Deployed(h, answers, q).result.verdict == Succeeded <==>
              && answers(h.clock).ending == Fine
              && Revision(answers(h.clock).stamp) == q.candidate && IsSha(q.candidate)
              && HealthyWithin(h.clock + 1, answers, WAIT_ATTEMPTS)
  {
    hide WaitRevision, Labelled, Revision, IsSha, HealthyWithin;
    WaitSucceedsExactly(Scripted(h, answers), answers, q.candidate, WAIT_ATTEMPTS);
    forall f ensures Labelled(f) in {Rejected, Failed} { LabelIsNeverSuccess(f); }
  }

  /** A rollback is made exactly when the deployment script ended well and what it
      deployed could not be verified as the healthy candidate. */
  lemma RolledBackExactly(h: Host, answers: Oracle, q: Request)
    ensures Deployed(h, answers, q).rolledBack <==>
              && answers(h.clock).ending == Fine
              && !(Revision(answers(h.clock).stamp) == q.candidate && IsSha(q.candidate)
                   && HealthyWithin(h.clock + 1, answers, WAIT_ATTEMPTS))
  {
    hide WaitRevision, Labelled, Revision, IsSha, HealthyWithin;
    WaitSucceedsExactly(Scripted(h, answers), answers, q.candidate, WAIT_ATTEMPTS);
  }

  /** A promotion that did not succeed was rolled back exactly when its script ended
      well; in either case the result denies it. */
  lemma FailedPromotionIsRolledBackExactly(h: Host, answers: Oracle, q: Request)
    requires Deployed(h, answers, q).result.verdict != Succeeded
    ensures var run := Deployed(h, answers, q);
            && (run.rolledBack <==> answers(h.clock).ending == Fine)
            && !run.result.rollbackPerformed
  {
    hide WaitRevision, Labelled, Revision, IsSha, HealthyWithin;
    RolledBackExactly(h, answers, q);
    PromotionSucceedsExactly(h, answers, q);
  }

  /** The other half: a deployment script that fails is not rolled back, whatever it
      left running, and the result says no more than `failed`. */
  lemma FailedScriptIsNotRolledBack(h: Host, answers: Oracle, q: Request)
    requires answers(h.clock).ending != Fine
    ensures var run := Deployed(h, answers, q);
            && run.result.verdict == Failed && !Conclusive(run.result.failure.value)
            && !run.rolledBack && run.host.stamp == answers(h.clock).stamp
  {
    hide WaitRevision, Revision, IsSha;
    RolledBackExactly(h, answers, q);
    CodesEndAsWritten();
  }

  /** Some command of the bounded wait at the start sees production healthy. */
  ghost predicate ReadyWithin(clock: nat, answers: Oracle, attempts: nat)
  {
    exists last: nat | clock <= last < clock + attempts :: ReadyAt(clock, answers, last)
  }

  ghost predicate ReadyAt(clock: nat, answers: Oracle, last: nat)
  {
    && (forall i: nat | clock <= i <= last :: answers(i).ending == Fine)
    && Text.Lower(Text.Strip(answers(last).health)) == HEALTHY
  }

  lemma {:induction false} WaitHealthySucceedsExactly(h: Host, answers: Oracle, attempts: nat)
    ensures WaitHealthy(h, answers, attempts).failure == None <==> ReadyWithin(h.clock, answers, attempts)
    decreases attempts
  {
    hide Text.Lower, Text.Strip;
    if attempts > 0 {
      WaitHealthySucceedsExactly(After(h), answers, attempts - 1);
      FirstReading(h.clock, answers, attempts);
      hide ReadyWithin;
    }
  }

  lemma FirstReading(clock: nat, answers: Oracle, attempts: nat)
    requires attempts > 0
    ensures ReadyWithin(clock, answers, attempts) <==>
              && answers(clock).ending == Fine
              && (Text.Lower(Text.Strip(answers(clock).health)) == HEALTHY || ReadyWithin(clock + 1, answers, attempts - 1))
  {
    hide Text.Lower, Text.Strip;
    if ReadyWithin(clock, answers, attempts) {
      var last: nat :| clock <= last < clock + attempts && ReadyAt(clock, answers, last);
      assert answers(clock).ending == Fine;
      assert last > clock ==> ReadyAt(clock + 1, answers, last);
    }
    if answers(clock).ending == Fine && Text.Lower(Text.Strip(answers(clock).health)) == HEALTHY {
      assert ReadyAt(clock, answers, clock);
    }
    if answers(clock).ending == Fine && ReadyWithin(clock + 1, answers, attempts - 1) {
      var last: nat :| clock + 1 <= last < clock + attempts && ReadyAt(clock + 1, answers, last);
      assert ReadyAt(clock, answers, last);
    }
  }

  /** The request passes every check that comes before its deployment script. */
  ghost predicate ReachesScript(h: Host, answers: Oracle, q: Request, preflight: bool)
  {
    && q.form == None && q.checks == None && q.build == None && !preflight
    && answers(h.clock).ending == Fine && IsSha(Revision(h.stamp)) && Revision(h.stamp) == q.rollback
    && ReadyWithin(h.clock + 1, answers, WAIT_ATTEMPTS)
  }

  /** The number of the deployment script among the commands of a request. */
  ghost function ScriptAt(h: Host, answers: Oracle): nat
  {
    WaitHealthy(After(h), answers, WAIT_ATTEMPTS).host.clock
  }

  /** The promotion ends with the candidate in production, seen healthy in time. */
  ghost predicate Lands(at: nat, answers: Oracle, q: Request)
  {
    && Revision(answers(at).stamp) == q.candidate && IsSha(q.candidate)
    && HealthyWithin(at + 1, answers, WAIT_ATTEMPTS)
  }

  /** Of a whole request: it succeeds exactly when it reaches its script, the script ends
      well and its deployment lands; it is rolled back exactly when it reaches its script,
      the script ends well and its deployment does not land. So a request that fails with
      a script that fails is never rolled back. No result admits a rollback, which makes
      the flag wrong exactly for those that were rolled back. */
  lemma RequestsAreRolledBackExactly(h: Host, answers: Oracle, q: Request, preflight: bool)
    ensures var run := Processed(h, answers, q, preflight);
            var at := ScriptAt(h, answers);
            var ended := ReachesScript(h, answers, q, preflight) && answers(at).ending == Fine;
            && (run.result.verdict == Succeeded <==> ended && Lands(at, answers, q))
            && (run.rolledBack <==> ended && !Lands(at, answers, q))
            && (run.result.rollbackPerformed == run.rolledBack <==> !(ended && !Lands(at, answers, q)))
  {
    hide WaitHealthy, WaitRevision, Labelled, Revision, IsSha, HealthyWithin, ReadyWithin, Deployed;
    WaitHealthySucceedsExactly(After(h), answers, WAIT_ATTEMPTS);
    var w := WaitHealthy(After(h), answers, WAIT_ATTEMPTS);
    PromotionSucceedsExactly(w.host, answers, q);
    RolledBackExactly(w.host, answers, q);
    DeployedIsTruthful(w.host, answers, q);
    forall f ensures Labelled(f) in {Rejected, Failed} { LabelIsNeverSuccess(f); }
  }

  /** A preflight that passes reports the label of production, folded and stripped. */
  ghost predicate ShowsLabel(r: Result, stamp: string)
  {
    r.verdict == PreflightPassed ==> r.liveRevision == Text.Lower(Text.Strip(stamp))
  }

  lemma PreflightsShowTheLabel(h: Host, answers: Oracle, q: Request, preflight: bool)
    ensures ShowsLabel(Processed(h, answers, q, preflight).result, h.stamp)
  {
    RequestsAreFiledExactly(h, answers, q, preflight);
    hide Processed;
  }

  lemma {:induction false} WaitFailsWithItsOwnCode(h: Host, answers: Oracle, expected: string, attempts: nat)
    ensures WaitRevision(h, answers, expected, attempts).failure != Some(Coded(ROLLBACK_VERIFICATION_FAILED))
    decreases attempts
  {
    CodesDiffer();
    hide Revision, IsSha;
    if attempts > 0 {
      WaitFailsWithItsOwnCode(After(After(h)), answers, expected, attempts - 1);
    }
  }

  lemma CodesDiffer()
    ensures ROLLBACK_VERIFICATION_FAILED !in
              {COMMAND_FAILED, LIVE_REVISION_UNVERIFIED, POST_DEPLOY_VERIFICATION_FAILED}
  {
  }

  /** After a rollback production is what the rollback script left, the first command
      after the failed verification. The error says that the rollback could not be
      verified exactly when that script failed, left another revision, or was not seen
      healthy in time; in every other case the old revision is back. */
  lemma RollbackScriptDecides(h: Host, answers: Oracle, q: Request)
    requires Deployed(h, answers, q).rolledBack
    ensures var run := Deployed(h, answers, q);
            var at := WaitRevision(Scripted(h, answers), answers, q.candidate, WAIT_ATTEMPTS).host.clock;
            && h.clock < at <= h.clock + 1 + 2 * WAIT_ATTEMPTS
            && run.host.stamp == answers(at).stamp
            && (run.result.failure != Some(Coded(ROLLBACK_VERIFICATION_FAILED)) <==>
                  && answers(at).ending == Fine
                  && Revision(answers(at).stamp) == q.rollback && IsSha(q.rollback)
                  && HealthyWithin(at + 1, answers, WAIT_ATTEMPTS))
  {
    hide WaitRevision, Labelled, Revision, IsSha, HealthyWithin;
    var script := Scripted(h, answers);
    var w := WaitRevision(script, answers, q.candidate, WAIT_ATTEMPTS);
    WaitOnlyLooks(script, answers, q.candidate, WAIT_ATTEMPTS);
    WaitFailsWithItsOwnCode(script, answers, q.candidate, WAIT_ATTEMPTS);
    var rolled := Scripted(w.host, answers);
    WaitOnlyLooks(rolled, answers, q.rollback, WAIT_ATTEMPTS);
    WaitSucceedsExactly(rolled, answers, q.rollback, WAIT_ATTEMPTS);
  }

  // ----- What is filed, in the words of the request -----

  /** Forty hexadecimal digits. */
  ghost predicate ExactRevision(r: string)
  {
    |r| == 40 && forall i | 0 <= i < 40 :: r[i] in "0123456789abcdef"
  }

  lemma ShaIsExact(r: string)
    ensures IsSha(r) <==> ExactRevision(r)
  {
    forall c: char ensures IsHex(c) <==> c in "0123456789abcdef" { HexIsExact(c); }
    hide IsHex;
    assert (forall c | c in r :: IsHex(c)) <==> forall i | 0 <= i < |r| :: IsHex(r[i]);
  }

  lemma HexIsExact(c: char)
    ensures IsHex(c) <==> c in "0123456789abcdef"
  {
    var digits := "0123456789abcdef";
    assert |digits| == 16;
    if '0' <= c <= '9' {
      assert digits[(c - '0') as int] == c;
    }
    if 'a' <= c <= 'f' {
      assert digits[10 + (c - 'a') as int] == c;
    }
  }

  /** The error is filed as failed exactly when its code ends in FAILED or it is not the
      runner's own. */
  lemma LabelsAreExact(f: Failure)
    ensures Labelled(f) == if f.Coded? && !(exists a :: f.code == a + "FAILED") then Rejected else Failed
  {
    if f.Coded? && HasSuffix(f.code, "FAILED") {
      assert f.code == f.code[..|f.code| - 6] + "FAILED";
    }
    if f.Coded? && exists a :: f.code == a + "FAILED" {
      var a :| f.code == a + "FAILED";
      assert f.code[|f.code| - 6..] == "FAILED";
    }
  }

  /** What a command that did not end well is reported as. */
  ghost predicate Reports(ending: Ending, f: Failure)
  {
    match ending
    case Fine => false
    case Exit => f == Coded("COMMAND_FAILED")
    case Raised(name) => f == Other(name)
  }

  /** Reading the revision of production fails with this error. */
  ghost predicate ReadingFails(h: Host, answers: Oracle, f: Failure)
  {
    Reports(answers(h.clock).ending, f)
    || (answers(h.clock).ending == Fine && !ExactRevision(Revision(h.stamp)) && f == Coded("LIVE_REVISION_UNVERIFIED"))
  }

  ghost predicate SeesHealthy(a: Answer)
  {
    Text.Lower(Text.Strip(a.health)) == "healthy"
  }

  /** The readings before this one end well without seeing production healthy. */
  ghost predicate Unhealthy(from: nat, to: nat, answers: Oracle)
  {
    forall i: nat | from <= i < to :: answers(i).ending == Fine && !SeesHealthy(answers(i))
  }

  /** Waiting for production to be healthy fails with this error: that of the first reading
      that does not end well, or that none of them was healthy. */
  ghost predicate WaitingFails(clock: nat, answers: Oracle, attempts: nat, f: Failure)
  {
    || (exists i: nat | clock <= i < clock + attempts :: Unhealthy(clock, i, answers) && Reports(answers(i).ending, f))
    || (Unhealthy(clock, clock + attempts, answers) && f == Coded("PRODUCTION_NOT_HEALTHY"))
  }

  lemma {:induction false} WaitingFailsExactly(h: Host, answers: Oracle, attempts: nat)
    ensures var failure := WaitHealthy(h, answers, attempts).failure;
            failure.Some? ==> WaitingFails(h.clock, answers, attempts, failure.value)
    decreases attempts
  {
    hide Text.Lower, Text.Strip;
    var failure := WaitHealthy(h, answers, attempts).failure;
    if attempts > 0 && failure.Some? {
      if answers(h.clock).ending != Fine {
        assert Unhealthy(h.clock, h.clock, answers) && Reports(answers(h.clock).ending, failure.value);
      } else {
        WaitingFailsExactly(After(h), answers, attempts - 1);
        LaterWaitFails(h.clock, answers, attempts, failure.value);
      }
    }
  }

  lemma LaterWaitFails(clock: nat, answers: Oracle, attempts: nat, f: Failure)
    requires attempts > 0 && answers(clock).ending == Fine && !SeesHealthy(answers(clock))
    requires WaitingFails(clock + 1, answers, attempts - 1, f)
    ensures WaitingFails(clock, answers, attempts, f)
  {
    hide SeesHealthy;
    if exists i: nat | clock + 1 <= i < clock + attempts :: Unhealthy(clock + 1, i, answers) && Reports(answers(i).ending, f) {
      var i: nat :| clock + 1 <= i < clock + attempts && Unhealthy(clock + 1, i, answers) && Reports(answers(i).ending, f);
      assert Unhealthy(clock, i, answers);
    }
  }

  /** The first check that fails, in the order form, reading, health, revision, checks,
      build, is the one that is filed. A preflight ends before the build. */
  ghost predicate RefusedFor(h: Host, answers: Oracle, q: Request, preflight: bool, f: Failure)
  {
    if q.form.Some? then f == q.form.value
    else if answers(h.clock).ending != Fine || !ExactRevision(Revision(h.stamp)) then ReadingFails(h, answers, f)
    else if !ReadyWithin(h.clock + 1, answers, 30) then WaitingFails(h.clock + 1, answers, 30, f)
    else if Revision(h.stamp) != q.rollback then f == Coded("ROLLBACK_REVISION_MISMATCH")
    else if q.checks.Some? then f == q.checks.value
    else !preflight && q.build.Some? && f == q.build.value
  }

  /** The checks that a preflight makes are passed. */
  ghost predicate PassesChecks(h: Host, answers: Oracle, q: Request)
  {
    && q.form == None && q.checks == None
    && answers(h.clock).ending == Fine && ExactRevision(Revision(h.stamp)) && Revision(h.stamp) == q.rollback
    && ReadyWithin(h.clock + 1, answers, 30)
  }

  /** An error is filed without a live revision, as rejected if it is the runner's own with a
      code that does not end in FAILED, and as failed otherwise. */
  ghost predicate FiledAsError(r: Result)
  {
    && r.failure.Some? && r.liveRevision == ""
    && r.verdict == if r.failure.value.Coded? && !(exists a :: r.failure.value.code == a + "FAILED") then Rejected else Failed
  }

  /** What is filed for a request: preflight passed exactly for a preflight that passes the
      checks; otherwise, short of a deployment, the first check that fails; the revision
      that is live in both kinds of success, and none beside an error. */
  ghost predicate FiledExactly(h: Host, answers: Oracle, q: Request, preflight: bool, result: Result)
  {
    && (result.verdict == PreflightPassed <==> preflight && PassesChecks(h, answers, q))
    && (result.verdict == PreflightPassed ==> result.liveRevision == Revision(h.stamp) == q.rollback)
    && (result.verdict == Succeeded ==> result.liveRevision == q.candidate)
    && (result.failure == None <==> result.verdict in {PreflightPassed, Succeeded})
    && (result.failure.Some? ==> FiledAsError(result))
    && (!PassesChecks(h, answers, q) || (!preflight && q.build.Some?) ==>
          result.failure.Some? && RefusedFor(h, answers, q, preflight, result.failure.value))
  }

  lemma RefusalsCarryTheirLabel(f: Failure)
    ensures var r := Refusal(f); r.failure == Some(f) && r.verdict in {Rejected, Failed} && FiledAsError(r)
  {
    LabelsAreExact(f);
    hide Labelled;
  }

  lemma DeployedIsLabelled(h: Host, answers: Oracle, q: Request)
    ensures var r := Deployed(h, answers, q).result;
            && r.verdict != PreflightPassed
            && (r.verdict == Succeeded <==> r.failure == None)
            && (r.failure == None ==> r.liveRevision == q.candidate)
            && (r.failure.Some? ==> r == Refusal(r.failure.value))
  {
    hide WaitRevision, Labelled;
    forall f ensures Labelled(f) in {Rejected, Failed} { LabelIsNeverSuccess(f); }
  }

  lemma ReadingsAreExact(h: Host, answers: Oracle)
    ensures LiveRevision(h, answers).Value? <==> answers(h.clock).ending == Fine && ExactRevision(Revision(h.stamp))
    ensures LiveRevision(h, answers).Value? ==> LiveRevision(h, answers).value == Revision(h.stamp)
    ensures LiveRevision(h, answers).Error? ==> ReadingFails(h, answers, LiveRevision(h, answers).failure)
  {
    ShaIsExact(Revision(h.stamp));
    hide Revision, IsSha, ExactRevision;
  }

  lemma RequestsAreFiledExactly(h: Host, answers: Oracle, q: Request, preflight: bool)
    ensures FiledExactly(h, answers, q, preflight, Processed(h, answers, q, preflight).result)
  {
    hide WaitHealthy, Deployed, Revision, IsSha, ExactRevision, ReadyWithin, WaitingFails, Refusal, FiledAsError, Reports;
    hide LiveRevision, ReadingFails;
    ReadingsAreExact(h, answers);
    WaitHealthySucceedsExactly(After(h), answers, WAIT_ATTEMPTS);
    WaitingFailsExactly(After(h), answers, WAIT_ATTEMPTS);
    DeployedIsLabelled(WaitHealthy(After(h), answers, WAIT_ATTEMPTS).host, answers, q);
    forall f ensures var r := Refusal(f); r.failure == Some(f) && r.verdict in {Rejected, Failed} && FiledAsError(r) {
      RefusalsCarryTheirLabel(f);
    }
  }

  /** The commands of the rounds from here to there end well, and no reading of the health,
      every second one, sees production healthy. */
  ghost predicate RoundsUnhealthy(from: nat, to: nat, answers: Oracle)
  {
    forall j: nat | from <= j < to ::
      answers(j).ending == Fine && ((j - from) % 2 == 1 ==> !SeesHealthy(answers(j)))
  }

  /** Verifying a deployed revision fails with this error. */
  ghost predicate VerifyingFails(h: Host, answers: Oracle, expected: string, attempts: nat, f: Failure)
  {
    if !ExactRevision(Revision(h.stamp)) then ReadingFails(h, answers, f)
    else if Revision(h.stamp) != expected then
      || Reports(answers(h.clock).ending, f)
      || (answers(h.clock).ending == Fine && Reports(answers(h.clock + 1).ending, f))
      || (answers(h.clock).ending == answers(h.clock + 1).ending == Fine && f == Coded("POST_DEPLOY_VERIFICATION_FAILED"))
    else RoundsFail(h.clock, answers, attempts, f)
  }

  ghost predicate RoundsFail(clock: nat, answers: Oracle, attempts: nat, f: Failure)
  {
    || (exists i: nat | clock <= i < clock + 2 * attempts ::
          RoundsUnhealthy(clock, i, answers) && Reports(answers(i).ending, f))
    || (RoundsUnhealthy(clock, clock + 2 * attempts, answers) && f == Coded("POST_DEPLOY_VERIFICATION_FAILED"))
  }

  lemma LaterRoundsFail(clock: nat, answers: Oracle, attempts: nat, f: Failure)
    requires attempts > 0 && answers(clock).ending == answers(clock + 1).ending == Fine && !SeesHealthy(answers(clock + 1))
    requires RoundsFail(clock + 2, answers, attempts - 1, f)
    ensures RoundsFail(clock, answers, attempts, f)
  {
    hide SeesHealthy;
    if exists i: nat | clock + 2 <= i < clock + 2 * attempts :: RoundsUnhealthy(clock + 2, i, answers) && Reports(answers(i).ending, f) {
      var i: nat :| clock + 2 <= i < clock + 2 * attempts && RoundsUnhealthy(clock + 2, i, answers) && Reports(answers(i).ending, f);
      TwoRoundsMore(clock, i, answers);
    } else {
      TwoRoundsMore(clock, clock + 2 * attempts, answers);
    }
  }

  lemma TwoRoundsMore(clock: nat, to: nat, answers: Oracle)
    requires clock + 2 <= to && RoundsUnhealthy(clock + 2, to, answers)
    requires answers(clock).ending == answers(clock + 1).ending == Fine && !SeesHealthy(answers(clock + 1))
    ensures RoundsUnhealthy(clock, to, answers)
  {
    hide SeesHealthy;
    forall j: nat | clock <= j < to
      ensures answers(j).ending == Fine && ((j - clock) % 2 == 1 ==> !SeesHealthy(answers(j)))
    {
      assert j >= clock + 2 ==> (j - clock) % 2 == (j - (clock + 2)) % 2;
    }
  }

  lemma {:induction false} RoundsFailExactly(h: Host, answers: Oracle, attempts: nat)
    requires ExactRevision(Revision(h.stamp))
    ensures var failure := WaitRevision(h, answers, Revision(h.stamp), attempts).failure;
            failure.Some? ==> RoundsFail(h.clock, answers, attempts, failure.value)
    decreases attempts
  {
    hide Text.Lower, Text.Strip, Revision, ExactRevision, IsSha;
    ShaIsExact(Revision(h.stamp));
    var failure := WaitRevision(h, answers, Revision(h.stamp), attempts).failure;
    if attempts > 0 && failure.Some? {
      if answers(h.clock).ending != Fine {
        assert RoundsUnhealthy(h.clock, h.clock, answers) && Reports(answers(h.clock).ending, failure.value);
      } else if answers(h.clock + 1).ending != Fine {
        assert RoundsUnhealthy(h.clock, h.clock + 1, answers) && Reports(answers(h.clock + 1).ending, failure.value);
      } else {
        RoundsFailExactly(After(After(h)), answers, attempts - 1);
        LaterRoundsFail(h.clock, answers, attempts, failure.value);
      }
    }
  }

  lemma VerifyingFailsExactly(h: Host, answers: Oracle, expected: string, attempts: nat)
    requires attempts > 0
    ensures var failure := WaitRevision(h, answers, expected, attempts).failure;
            failure.Some? ==> VerifyingFails(h, answers, expected, attempts, failure.value)
  {
    ShaIsExact(Revision(h.stamp));
    if ExactRevision(Revision(h.stamp)) && Revision(h.stamp) == expected { RoundsFailExactly(h, answers, attempts); }
    hide Text.Lower, Text.Strip, Revision, ExactRevision, IsSha, RoundsFail;
  }

  /** What is filed once the deployment script was reached: its own error if it does not end
      well; else, if verifying the candidate fails, the error of that when the rollback is
      verified, and that the rollback could not be verified when it is not. */
  lemma PromotionsAreFiledExactly(h: Host, answers: Oracle, q: Request)
    requires Deployed(h, answers, q).result.failure.Some?
    ensures var run := Deployed(h, answers, q);
            var f := run.result.failure.value;
            var w := WaitRevision(Scripted(h, answers), answers, q.candidate, WAIT_ATTEMPTS);
            if answers(h.clock).ending != Fine then Reports(answers(h.clock).ending, f)
            else
              && run.rolledBack
              && (f != Coded("ROLLBACK_VERIFICATION_FAILED") ==>
                    VerifyingFails(Scripted(h, answers), answers, q.candidate, 30, f))
              && (f == Coded("ROLLBACK_VERIFICATION_FAILED") ==>
                    answers(w.host.clock).ending != Fine
                    || WaitRevision(Scripted(w.host, answers), answers, q.rollback, WAIT_ATTEMPTS).failure.Some?)
  {
    hide WaitRevision, Labelled, VerifyingFails;
    VerifyingFailsExactly(Scripted(h, answers), answers, q.candidate, WAIT_ATTEMPTS);
    WaitFailsWithItsOwnCode(Scripted(h, answers), answers, q.candidate, WAIT_ATTEMPTS);
  }

  // ----- The spool -----

  datatype Filed = Filed(mtime: int, request: Request)

  /** One entry of the history of a spool. */
  datatype Entry = Entry(name: string, filed: Filed, before: Host, run: Run)

  predicate IsOldest(requests: map<string, Filed>, name: string)
  {
    name in requests && forall n | n in requests :: requests[name].mtime <= requests[n].mtime
  }

  class Spool {
    var requests: map<string, Filed>
    var processing: map<string, Filed>
    var results: map<string, Result>
    const runner: Runner
    ghost var log: seq<Entry>

    constructor (runner: Runner, requests: map<string, Filed>)
      ensures this.runner == runner && this.requests == requests
      ensures processing == map[] && results == map[] && log == []
    {
      this.runner, this.requests := runner, requests;
      processing, results, log := map[], map[], [];
    }

    /** The name of an oldest request. */
    method Earliest() returns (name: string)
      requires requests != map[]
      ensures IsOldest(requests, name)
    {
      var todo := requests.Keys;
      name :| name in todo;
      todo := todo - {name};
      while todo != {}
        invariant todo <= requests.Keys && name in requests
        invariant forall n | n in requests && n !in todo :: requests[name].mtime <= requests[n].mtime
        decreases |todo|
      {
        var other :| other in todo;
        if requests[other].mtime < requests[name].mtime {
          name := other;
        }
        todo := todo - {other};
      }
    }

    /** Take the oldest request, carry it out, file its result under its name. Meanwhile
        other requests may be filed, also under names that are waiting or were served. */
    method ProcessOne(preflight: bool, arriving: map<string, Filed>) returns (found: bool, ghost e: Option<Entry>)
      modifies this, runner
      ensures found == (old(requests) != map[]) == e.Some?
      ensures !found ==>
                && requests == old(requests) && processing == old(processing) && results == old(results)
                && log == old(log) && runner.Now() == old(runner.Now())
      ensures found ==>
                && log == old(log) + [e.value]
                && Follows(e.value, old(Now()), arriving, runner.answers, preflight, Now())
                && processing == old(processing) - {e.value.name}
                && e.value.name in old(requests)
                && (forall n | n in old(requests) :: old(requests)[e.value.name].mtime <= old(requests)[n].mtime)
    {
      hide Processed;
      if requests == map[] {
        return false, None;
      }
      var name := Earliest();
      var filed := requests[name];
      ghost var before := runner.Now();
      requests := requests - {name};
      processing := processing[name := filed];
      var result, deployed, rolledBack := runner.Process(filed.request, preflight);
      requests := requests + arriving;
      results := results[name := result];
      processing := processing - {name};
      e := Some(Entry(name, filed, before, Run(runner.Now(), result, deployed, rolledBack)));
      log := log + [e.value];
      found := true;
    }

    ghost function Now(): Desk
      reads this, runner
    {
      Desk(requests, results, runner.Now())
    }

    /** Take requests until none is left, or only one when told so, while others arrive. */
    method Drain(once: bool, preflight: bool, arrivals: seq<map<string, Filed>>) returns (processed: bool)
      modifies this, runner
      ensures |log| >= |old(log)| && log[..|old(log)|] == old(log)
      ensures Accounts(log[|old(log)|..], old(Now()), arrivals, runner.answers, preflight, Now())
      ensures processed == (old(requests) != map[])
      ensures if once then |log| <= |old(log)| + 1 else requests == map[]
    {
      hide Accounts, Follows;
      processed := false;
      ghost var es: seq<Entry> := [];
      var served := 0;
      NothingYet(Now(), arrivals, runner.answers, preflight);
      while true
        invariant log == old(log) + es && served == |es|
        invariant Accounts(es, old(Now()), arrivals, runner.answers, preflight, Now())
        invariant processed == (es != [])
        invariant es == [] ==> requests == old(requests)
        invariant es != [] ==> old(requests) != map[]
        invariant once ==> es == []
        decreases if served < |arrivals| then |arrivals| - served else 0, |requests|
      {
        ghost var desk := Now();
        var found, e := ProcessOne(preflight, Arriving(arrivals, served));
        if !found {
          break;
        }
        OneMore(es, old(Now()), arrivals, runner.answers, preflight, desk, e.value, Now());
        if served >= |arrivals| {
          FewerLeft(e.value, desk, runner.answers, preflight, Now());
        }
        assert old(log) + es + [e.value] == old(log) + (es + [e.value]);
        es := es + [e.value];
        served := served + 1;
        processed := true;
        if once {
          break;
        }
      }
      assert log[|old(log)|..] == es;
    }
  }

  /** What a drain works on: the requests waiting, the results on file, the host. */
  datatype Desk = Desk(requests: map<string, Filed>, results: map<string, Result>, host: Host)

  /** The requests filed while the i-th one is carried out. */
  function Arriving(arrivals: seq<map<string, Filed>>, i: nat): map<string, Filed>
  {
    if i < |arrivals| then arrivals[i] else map[]
  }

  /** One request, an oldest one, was carried out and its result filed under its name. */
  ghost predicate Follows(
    e: Entry, m: Desk, arriving: map<string, Filed>, answers: Oracle, preflight: bool, g: Desk)
  {
    && IsOldest(m.requests, e.name) && e.filed == m.requests[e.name]
    && e.before == m.host && e.run.host == g.host
    && e.run == Processed(e.before, answers, e.filed.request, preflight)
    && g.requests == m.requests - {e.name} + arriving && g.results == m.results[e.name := e.run.result]
  }

  /** The requests waiting after the entries. */
  function Waiting(es: seq<Entry>, requests: map<string, Filed>, arrivals: seq<map<string, Filed>>): map<string, Filed>
  {
    if es == [] then requests
    else
      var n := |es| - 1;
      Waiting(es[..n], requests, arrivals) - {es[n].name} + Arriving(arrivals, n)
  }

  /** Every entry is an oldest one of the requests that were waiting when it was taken. */
  ghost predicate OldestFirst(es: seq<Entry>, requests: map<string, Filed>, arrivals: seq<map<string, Filed>>)
  {
    forall i | 0 <= i < |es| :: TakesOldest(es[i], Waiting(es[..i], requests, arrivals))
  }

  predicate TakesOldest(e: Entry, waiting: map<string, Filed>)
  {
    IsOldest(waiting, e.name) && e.filed == waiting[e.name]
  }

  /** The entries account for the whole change from one desk to the other. */
  ghost predicate Accounts(
    es: seq<Entry>, d: Desk, arrivals: seq<map<string, Filed>>, answers: Oracle, preflight: bool, g: Desk)
  {
    && Chained(es, d.host, answers, preflight, g.host)
    && OldestFirst(es, d.requests, arrivals)
    && g.requests == Waiting(es, d.requests, arrivals)
    && g.results == Filing(d.results, es)
  }

  lemma NothingYet(d: Desk, arrivals: seq<map<string, Filed>>, answers: Oracle, preflight: bool)
    ensures Accounts([], d, arrivals, answers, preflight, d)
  {
  }

  /** Every request is served before all later ones that were waiting with it. */
  lemma NoneServedIsLater(es: seq<Entry>, requests: map<string, Filed>, arrivals: seq<map<string, Filed>>, i: nat, n: string)
    requires OldestFirst(es, requests, arrivals) && i < |es| && n in Waiting(es[..i], requests, arrivals)
    ensures es[i].filed.mtime <= Waiting(es[..i], requests, arrivals)[n].mtime
  {
    assert TakesOldest(es[i], Waiting(es[..i], requests, arrivals));
  }

  lemma OneMore(
    es: seq<Entry>, d: Desk, arrivals: seq<map<string, Filed>>, answers: Oracle, preflight: bool, m: Desk, e: Entry, g: Desk)
    requires Accounts(es, d, arrivals, answers, preflight, m)
    requires Follows(e, m, Arriving(arrivals, |es|), answers, preflight, g)
    ensures Accounts(es + [e], d, arrivals, answers, preflight, g)
  {
    hide Processed, IsOldest;
    var all := es + [e];
    assert all[..|es|] == es;
    forall i | 0 <= i < |all| ensures TakesOldest(all[i], Waiting(all[..i], d.requests, arrivals)) {
      if i < |es| {
        assert all[..i] == es[..i] && all[i] == es[i];
      }
    }
  }

  lemma FewerLeft(e: Entry, m: Desk, answers: Oracle, preflight: bool, g: Desk)
    requires Follows(e, m, map[], answers, preflight, g)
    ensures |g.requests| < |m.requests|
  {
    hide Processed;
    assert g.requests.Keys == m.requests.Keys - {e.name};
    assert |g.requests.Keys| == |m.requests.Keys| - 1;
  }

  /** No request is forgotten: whatever was waiting at the start or arrived since was
      served under its name or is waiting under it. */
  lemma {:induction false} NoRequestIsForgotten(
    es: seq<Entry>, requests: map<string, Filed>, arrivals: seq<map<string, Filed>>, name: string)
    requires name in requests || exists i | 0 <= i < |es| :: name in Arriving(arrivals, i)
    ensures name in Names(es) || name in Waiting(es, requests, arrivals)
  {
    if es != [] {
      var n := |es| - 1;
      if name !in Arriving(arrivals, n) {
        NoRequestIsForgotten(es[..n], requests, arrivals, name);
      }
    }
  }

  /** No name is used again for another request. */
  ghost predicate NewNames(requests: map<string, Filed>, arrivals: seq<map<string, Filed>>)
  {
    && (forall i | 0 <= i < |arrivals| :: arrivals[i].Keys !! requests.Keys)
    && (forall i, j | 0 <= i < j < |arrivals| :: arrivals[i].Keys !! arrivals[j].Keys)
  }

  ghost predicate Known(requests: map<string, Filed>, arrivals: seq<map<string, Filed>>, n: nat, name: string)
  {
    name in requests || exists i | 0 <= i < n :: name in Arriving(arrivals, i)
  }

  lemma ArrivalsAreNew(requests: map<string, Filed>, arrivals: seq<map<string, Filed>>, n: nat, name: string)
    requires NewNames(requests, arrivals) && Known(requests, arrivals, n, name)
    ensures name !in Arriving(arrivals, n) && Known(requests, arrivals, n + 1, name)
  {
  }

  lemma {:induction false} ServedNoLongerWait(
    es: seq<Entry>, requests: map<string, Filed>, arrivals: seq<map<string, Filed>>, name: string)
    requires NewNames(requests, arrivals) && OldestFirst(es, requests, arrivals)
    ensures !(name in Names(es) && name in Waiting(es, requests, arrivals))
    ensures name in Names(es) || name in Waiting(es, requests, arrivals) ==> Known(requests, arrivals, |es|, name)
  {
    if es != [] {
      var n := |es| - 1;
      var front, e := es[..n], es[n];
      assert forall i | 0 <= i < n :: front[i] == es[i] && front[..i] == es[..i];
      ServedNoLongerWait(front, requests, arrivals, name);
      assert TakesOldest(e, Waiting(front, requests, arrivals));
      assert e.name in Waiting(front, requests, arrivals);
      hide TakesOldest, OldestFirst;
      if Known(requests, arrivals, n, name) {
        ArrivalsAreNew(requests, arrivals, n, name);
      }
      hide NewNames, OldestFirst;
    }
  }

  /** As long as names are not used again, no request is served twice. */
  lemma NoRequestIsServedTwice(
    es: seq<Entry>, requests: map<string, Filed>, arrivals: seq<map<string, Filed>>, i: nat, j: nat)
    requires NewNames(requests, arrivals) && OldestFirst(es, requests, arrivals) && i < j < |es|
    ensures es[i].name != es[j].name
  {
    var front := es[..j];
    assert forall k | 0 <= k < j :: front[k] == es[k] && front[..k] == es[..k];
    assert TakesOldest(es[j], Waiting(front, requests, arrivals));
    ServedNoLongerWait(front, requests, arrivals, es[j].name);
    NameIsThere(front, i);
    hide NewNames, OldestFirst, Names, Waiting;
  }

  lemma {:induction false} NameIsThere(es: seq<Entry>, i: nat)
    requires i < |es|
    ensures es[i].name in Names(es)
  {
    if i < |es| - 1 {
      NameIsThere(es[..|es| - 1], i);
    }
  }

  /** Each entry was carried out on the production the entry before it left. */
  ghost predicate Chained(es: seq<Entry>, h: Host, answers: Oracle, preflight: bool, g: Host)
  {
    if es == [] then g == h
    else
      var e := es[|es| - 1];
      && e.run.host == g
      && e.run == Processed(e.before, answers, e.filed.request, preflight)
      && Chained(es[..|es| - 1], h, answers, preflight, e.before)
  }

  function Names(es: seq<Entry>): set<string>
  {
    if es == [] then {} else Names(es[..|es| - 1]) + {es[|es| - 1].name}
  }

  /** The results on file after the entries. */
  function Filing(results: map<string, Result>, es: seq<Entry>): map<string, Result>
  {
    if es == [] then results
    else Filing(results, es[..|es| - 1])[es[|es| - 1].name := es[|es| - 1].run.result]
  }

  // ----- What a history says about production -----

  /** The revision that the successes of a history promoted last. */
  function Promoted(es: seq<Entry>, initial: string): string
  {
    if es == [] then initial
    else if es[|es| - 1].run.result.verdict == Succeeded then es[|es| - 1].filed.request.candidate
    else Promoted(es[..|es| - 1], initial)
  }

  predicate Settled(result: Result)
  {
    result.failure.Some? ==> Conclusive(result.failure.value)
  }

  /** As long as every error is conclusive, production carries what the last success
      promoted, and every success replaced exactly the success before it: however
      requests queue up, none overwrites a revision it was not made for. */
  lemma {:induction false} ProductionIsTheLastSuccess(
    es: seq<Entry>, h: Host, answers: Oracle, preflight: bool, g: Host)
    requires Chained(es, h, answers, preflight, g)
    requires forall i | 0 <= i < |es| :: Settled(es[i].run.result)
    ensures Revision(g.stamp) == Promoted(es, Revision(h.stamp))
    ensures forall i | 0 <= i < |es| && es[i].run.result.verdict == Succeeded ::
              es[i].filed.request.rollback == Promoted(es[..i], Revision(h.stamp))
  {
    hide Processed, Revision, Conclusive;
    if es != [] {
      var n := |es| - 1;
      var front, e := es[..n], es[n];
      ProductionIsTheLastSuccess(front, h, answers, preflight, e.before);
      ResultsTellTheTruth(e.before, answers, e.filed.request, preflight);
      FailureOrSuccess(e.before, answers, e.filed.request, preflight);
      forall i | 0 <= i < n && es[i].run.result.verdict == Succeeded
        ensures es[i].filed.request.rollback == Promoted(es[..i], Revision(h.stamp))
      {
        assert front[i] == es[i] && front[..i] == es[..i];
      }
    }
  }

  lemma FailureOrSuccess(h: Host, answers: Oracle, q: Request, preflight: bool)
    ensures var result := Processed(h, answers, q, preflight).result;
            result.failure.Some? || result.verdict in {Succeeded, PreflightPassed}
  {
    hide WaitHealthy, WaitRevision, Labelled, Revision, IsSha;
  }

  /** A request made for a revision that has since been replaced does nothing. */
  lemma StaleRequestChangesNothing(h: Host, answers: Oracle, q: Request, preflight: bool)
    requires q.rollback != Revision(h.stamp)
    ensures var run := Processed(h, answers, q, preflight);
            run.host.stamp == h.stamp && run.result.verdict in {Rejected, Failed} && !run.deployed
  {
    hide WaitHealthy, Labelled, Revision, IsSha, Admitted;
    WaitHealthyOnlyLooks(After(h), answers, WAIT_ATTEMPTS);
    forall f ensures Labelled(f) in {Rejected, Failed} { LabelIsNeverSuccess(f); }
  }
}
