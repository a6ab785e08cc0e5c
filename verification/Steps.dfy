/** Every step of the process, field by field: what it needs and what it writes, in the
    words of the state file (tools/pmv3_work_engine.py). */
module Steps {
  import opened Wrappers
  import opened WorkItems
  import opened Runs
  import opened Cycles
  import opened Fairness
  import opened Admissions
  import Text

  /** A run starts from an empty file and a process that is not there. */
  lemma RunsStartEmpty(now: int)
    ensures Init(now).disk == Init(now).vol == Inventory(0, now, map[], map[], Metrics(0, 0, 0, 0, 0, 0))
    ensures Init(now).pc == Down && Init(now).trace == []
  {
  }

  // ----- Approval decisions -----

  /** The decision is accepted: it comes from Teams, is verified, answers the request that
      its known item names, and decides. */
  predicate Accepts(inv: Inventory, a: ApprovalInput)
  {
    && a.channel == "teams" && a.verified && a.itemId in inv.items
    && a.requestId == inv.items[a.itemId].approvalRequestId != ""
    && Text.Strip(Text.Lower(a.decision)) in {"approve", "deny"}
  }

  /** An accepted decision becomes the approval of its item and changes nothing else; any
      other ends the process, and its memory is lost. */
  lemma DecisionIsRecordedExactly(w: World, a: ApprovalInput)
    requires w.pc.Loaded?
    ensures var n := Next(w, Approve(a));
            if Accepts(w.vol, a) then
              var given := Approval("teams", a.requestId, Text.Strip(Text.Lower(a.decision)),
                                    a.actorId, a.tenantId, a.receiptId, true);
              && n.pc.Loaded? && n.disk == w.disk
              && n.vol == w.vol.(items := w.vol.items[a.itemId := w.vol.items[a.itemId].(approval := Some(given))])
              && n.trace == w.trace + [Recorded(a.itemId, given)]
            else n == World(w.disk, w.disk, Down, w.trace + [Crashed])
  {
    hide Text.Strip, Text.Lower;
  }

  // ----- Selection -----

  /** Whether a cycle may select the item. */
  predicate Eligible(it: Item)
  {
    && it.phase == Runnable && it.approved
    && (it.approvalRequired ==>
          && it.approval.Some?
          && it.approval.value.channel == "teams"
          && it.approval.value.verified
          && it.approval.value.decision == "approve"
          && it.approval.value.requestId == it.approvalRequestId
          && it.approval.value.actorId != ""
          && it.approval.value.tenantId != ""
          && it.approval.value.receiptId != "")
  }

  lemma CandidatesAreEligible(it: Item)
    ensures Candidate(it) <==> Eligible(it)
  {
  }

  function Urgency(priority: int): int { if priority == 0 then 100 else priority }

  /** a comes first: by priority, where 0 counts as 100, then by age, then by id. */
  ghost predicate ComesFirst(a: Item, b: Item)
  {
    || Urgency(a.priority) < Urgency(b.priority)
    || (Urgency(a.priority) == Urgency(b.priority) && a.updatedAt < b.updatedAt)
    || (Urgency(a.priority) == Urgency(b.priority) && a.updatedAt == b.updatedAt && EarlierText(a.id, b.id))
  }

  /** At the first position where the texts differ, a has the smaller character or ends. */
  ghost predicate EarlierText(a: string, b: string)
  {
    exists i: nat | i <= |a| && i < |b| :: a[..i] == b[..i] && (i == |a| || a[i] < b[i])
  }

  lemma {:induction false} LessIsEarlier(a: string, b: string)
    ensures Text.Less(a, b) <==> EarlierText(a, b)
  {
    if b == "" {
    } else if a == "" {
      assert a[..0] == b[..0];
    } else {
      LessIsEarlier(a[1..], b[1..]);
      EarlierTail(a, b);
    }
  }

  lemma EarlierTail(a: string, b: string)
    requires a != "" && b != ""
    ensures EarlierText(a, b) <==> a[0] < b[0] || (a[0] == b[0] && EarlierText(a[1..], b[1..]))
  {
    if EarlierText(a, b) {
      var i: nat :| i <= |a| && i < |b| && a[..i] == b[..i] && (i == |a| || a[i] < b[i]);
      if i > 0 {
        assert a[..i][0] == b[..i][0];
        assert a[..i][1..] == b[..i][1..];
        assert a[1..][..i - 1] == a[..i][1..];
        assert b[1..][..i - 1] == b[..i][1..];
      }
    }
    if a[0] < b[0] {
      assert a[..0] == b[..0];
    }
    if a[0] == b[0] && EarlierText(a[1..], b[1..]) {
      LaterDifference(a, b);
    }
  }

  lemma LaterDifference(a: string, b: string)
    requires a != "" && b != "" && a[0] == b[0] && EarlierText(a[1..], b[1..])
    ensures EarlierText(a, b)
  {
    var x, y := a[1..], b[1..];
    var i: nat :| i <= |x| && i < |y| && x[..i] == y[..i] && (i == |x| || x[i] < y[i]);
    assert a[..i + 1] == [a[0]] + x[..i];
    assert b[..i + 1] == [b[0]] + y[..i];
    assert i + 1 == |a| || a[i + 1] < b[i + 1];
  }

  lemma BeforeComesFirst(a: Item, b: Item)
    ensures Before(RankOf(a), RankOf(b)) <==> ComesFirst(a, b)
  {
    LessIsEarlier(a.id, b.id);
    hide Text.Less, EarlierText;
  }

  ghost function EligibleIds(inv: Inventory): set<string>
  {
    set id | id in inv.items && Eligible(inv.items[id])
  }

  ghost function BusyIds(inv: Inventory): set<string>
  {
    set id | id in inv.items && inv.items[id].phase in {Running, Verifying}
  }

  /** The queue is the selection from the inventory: distinct eligible items in order, as
      many as there are free slots or all of them, and none left out comes before one taken. */
  ghost predicate IsSelection(q: seq<string>, inv: Inventory, capacity: int)
  {
    && (forall i | 0 <= i < |q| :: q[i] in EligibleIds(inv))
    && (forall i, j | 0 <= i < j < |q| :: q[i] in inv.items && q[j] in inv.items
                                          && q[i] != q[j] && ComesFirst(inv.items[q[i]], inv.items[q[j]]))
    && (forall i, id | 0 <= i < |q| && id in EligibleIds(inv) && id !in q ::
          q[i] in inv.items && ComesFirst(inv.items[q[i]], inv.items[id]))
    && |q| == Least(Excess(capacity, |BusyIds(inv)|), |EligibleIds(inv)|)
  }

  function Least(a: nat, b: nat): nat { if a < b then a else b }

  function Excess(capacity: int, busy: nat): nat { if capacity > busy then capacity - busy else 0 }

  lemma SelectionIsExact(inv: Inventory, capacity: int)
    requires IdsMatch(inv)
    ensures IsSelection(RunnableItems(inv, capacity), inv, capacity)
  {
    SelectionIsFirstCandidates(inv, capacity);
    forall it: Item ensures Candidate(it) <==> Eligible(it) { CandidatesAreEligible(it); }
    forall a: Item, b: Item ensures Before(RankOf(a), RankOf(b)) <==> ComesFirst(a, b) { BeforeComesFirst(a, b); }
    SlotsAreExact(inv, capacity);
    SelectionSize(inv, capacity);
    hide Candidate, Eligible, Before, RankOf, ComesFirst, RunnableItems, Slots;
  }

  lemma SlotsAreExact(inv: Inventory, capacity: int)
    ensures Slots(inv, capacity) == Excess(capacity, |BusyIds(inv)|)
  {
    assert ActiveIds(inv) == BusyIds(inv);
  }

  lemma SelectionSize(inv: Inventory, capacity: int)
    requires IdsMatch(inv)
    ensures |RunnableItems(inv, capacity)| == Least(Slots(inv, capacity), |EligibleIds(inv)|)
  {
    forall it: Item ensures Candidate(it) <==> Eligible(it) { CandidatesAreEligible(it); }
    SelectionIsFirstCandidates(inv, capacity);
    hide Candidate, Eligible, Before, RankOf, RunnableItems, Slots;
    var q := RunnableItems(inv, capacity);
    DistinctSize(q, EligibleIds(inv));
    SubsetSize((set x | x in q), EligibleIds(inv));
    if |q| != Slots(inv, capacity) {
      assert (set x | x in q) == EligibleIds(inv);
    }
  }

  // ----- The start of a cycle -----

  predicate Mentions(reason: string, term: string)
  {
    Text.Contains(Text.Lower(reason), term)
  }

  predicate TransportTrouble(r: string)
  {
    Mentions(r, "http transport") || Mentions(r, "connectortransporterror")
    || Mentions(r, "provider timeout") || Mentions(r, "connection reset")
  }

  predicate RateTrouble(r: string) { Mentions(r, "rate limit") || Mentions(r, "429") }

  predicate BillingTrouble(r: string)
  {
    Mentions(r, "insufficient_quota") || Mentions(r, "credit_balance_exhausted")
  }

  predicate CredentialTrouble(r: string)
  {
    Mentions(r, "credential") || Mentions(r, "api details") || Mentions(r, "tenant permission")
    || Mentions(r, "license required")
  }

  predicate ValidationTrouble(r: string)
  {
    Mentions(r, "regression test") || Mentions(r, "ci failure") || Mentions(r, "test failed")
    || Mentions(r, "validation failed")
  }

  predicate OwnerTrouble(r: string)
  {
    Mentions(r, "owner approval") || Mentions(r, "explicit approval") || Mentions(r, "authorization required")
  }

  lemma AnyOfTwo(r: string, a: string, b: string)
    ensures Text.ContainsAny(Text.Lower(r), [a, b]) <==> Mentions(r, a) || Mentions(r, b)
  {
    var terms := [a, b];
    assert terms[0] in terms && terms[1] in terms;
    hide Text.Contains;
  }

  lemma AnyOfThree(r: string, a: string, b: string, c: string)
    ensures Text.ContainsAny(Text.Lower(r), [a, b, c]) <==> Mentions(r, a) || Mentions(r, b) || Mentions(r, c)
  {
    var terms := [a, b, c];
    assert terms[0] in terms && terms[1] in terms && terms[2] in terms;
    hide Text.Contains;
  }

  lemma AnyOfFour(r: string, a: string, b: string, c: string, d: string)
    ensures Text.ContainsAny(Text.Lower(r), [a, b, c, d])
            <==> Mentions(r, a) || Mentions(r, b) || Mentions(r, c) || Mentions(r, d)
  {
    var terms := [a, b, c, d];
    assert terms[0] in terms && terms[1] in terms && terms[2] in terms && terms[3] in terms;
    hide Text.Contains;
  }

  /** What a reason text is taken for. */
  function ClassOf(r: string): string
  {
    if TransportTrouble(r) then "http_transport_failed"
    else if RateTrouble(r) then if BillingTrouble(r) then "billing_exhausted" else "rate_limited"
    else if CredentialTrouble(r) then "credentials_required"
    else if ValidationTrouble(r) then "validation_failed"
    else if OwnerTrouble(r) then "owner_approval_required"
    else "unknown"
  }

  lemma ClassesAreExact(r: string)
    ensures ClassifyReason(r) == ClassOf(r)
  {
    hide Text.ContainsAny, Text.Lower, Mentions;
    AnyOfFour(r, "http transport", "connectortransporterror", "provider timeout", "connection reset");
    AnyOfTwo(r, "rate limit", "429");
    AnyOfTwo(r, "insufficient_quota", "credit_balance_exhausted");
    AnyOfFour(r, "credential", "api details", "tenant permission", "license required");
    AnyOfFour(r, "regression test", "ci failure", "test failed", "validation failed");
    AnyOfThree(r, "owner approval", "explicit approval", "authorization required");
  }

  /** A blocked item is released exactly for trouble with the transport, with the rate but
      not the bill, or with validation when no credentials are mentioned. */
  predicate PassingTrouble(r: string)
  {
    || TransportTrouble(r)
    || (RateTrouble(r) && !BillingTrouble(r))
    || (!RateTrouble(r) && !CredentialTrouble(r) && ValidationTrouble(r))
  }

  predicate IsRetryable(c: string)
  {
    || c == "http_transport_failed" || c == "connector_transport_error" || c == "provider_timeout"
    || c == "connection_reset" || c == "temporary_unavailable" || c == "rate_limited" || c == "validation_failed"
  }

  predicate IsExternal(c: string)
  {
    || c == "credentials_required" || c == "provider_license_required" || c == "billing_exhausted"
    || c == "owner_approval_required" || c == "tenant_permission_required"
  }

  lemma RetryableClasses(c: string)
    ensures c in RETRYABLE <==> IsRetryable(c)
  {
  }

  lemma ExternalClasses(c: string)
    ensures c in EXTERNAL <==> IsExternal(c)
  {
  }

  lemma RetryableReasonsAreExact(r: string)
    ensures RetryableReason(r) <==> PassingTrouble(r)
  {
    hide TransportTrouble, RateTrouble, BillingTrouble, CredentialTrouble, ValidationTrouble, OwnerTrouble, ClassifyReason;
    ClassesAreExact(r);
    RetryableClasses(ClassOf(r));
    hide RETRYABLE;
  }

  /** What the start of a cycle makes of an item. */
  ghost predicate Begun(a: Item, b: Item, receipts: map<string, Receipt>, facts: map<string, bool>, now: int)
  {
    match a.phase
    case Waiting =>
      b == if a.dependency == "" || Established(facts, a.dependency)
           then a.(phase := Runnable, reason := "", dependency := "", updatedAt := now, lastProgressAt := now) else a
    case RetryWait =>
      b == if a.nextAttemptAt.Some? && a.nextAttemptAt.value <= now
           then a.(phase := Runnable, reason := "", nextAttemptAt := None, updatedAt := now) else a
    case Blocked =>
      b == if PassingTrouble(a.reason) then a.(phase := Runnable, reason := "", updatedAt := now) else a
    case Runnable => b == a
    case Complete => b == a
    case FailedExternal => b == a
    case _ => Interrupted(a, b, KeyOf(a) in receipts, facts, now)
  }

  /** What it makes of an item that was interrupted while running. */
  ghost predicate Interrupted(a: Item, b: Item, receipted: bool, facts: map<string, bool>, now: int)
  {
    b ==
    if receipted then a.(phase := Complete, reason := "", claimedAt := None, updatedAt := now)
    else if a.idempotent then
      a.(phase := Runnable, reason := "recovered_after_interrupted_idempotent_execution", claimedAt := None, updatedAt := now)
    else if Established(facts, "reconciliation_required") then
      a.(phase := Runnable, reason := "", dependency := "", claimedAt := None, updatedAt := now, lastProgressAt := now)
    else
      a.(phase := Waiting, reason := "indeterminate_execution_requires_reconciliation",
         dependency := "reconciliation_required", claimedAt := None, updatedAt := now)
  }

  lemma ItemsAreBegunExactly(a: Item, receipts: map<string, Receipt>, facts: map<string, bool>, now: int)
    ensures Begun(a, RecheckItem(RecoverItem(a, receipts, now), facts, now), receipts, facts, now)
  {
    RetryableReasonsAreExact(a.reason);
    hide KeyOf, RetryableReason, PassingTrouble;
  }

  /** The start of a cycle: the counter goes up, every item is looked at once, receipts and
      the file stay, and the queue is the selection from the result. */
  lemma CyclesBeginExactly(w: World, facts: map<string, bool>, now: int, capacity: int)
    requires Sound(w) && w.pc.Loaded?
    ensures var n := Next(w, BeginCycle(facts, now, capacity));
            && n.disk == w.disk && n.vol == w.vol.(cycle := w.vol.cycle + 1, items := n.vol.items)
            && n.vol.items.Keys == w.vol.items.Keys
            && (forall id | id in w.vol.items :: Begun(w.vol.items[id], n.vol.items[id], w.vol.receipts, facts, now))
            && n.pc.Ready? && n.pc.now == now && IsSelection(n.pc.queue, n.vol, capacity)
            && n.trace == w.trace + [CycleBegan(facts, now, capacity, n.vol)]
  {
    hide RecoverItem, RecheckItem, Begun, RunnableItems, IsSelection;
    var p := Prepare(w.vol, facts, now);
    forall id | id in w.vol.items ensures Begun(w.vol.items[id], p.items[id], w.vol.receipts, facts, now) {
      ItemsAreBegunExactly(w.vol.items[id], w.vol.receipts, facts, now);
    }
    SoundIds(w);
    PrepareKeepsIds(w.vol, facts, now);
    SelectionIsExact(p, capacity);
    BeginStep(w, facts, now, capacity);
  }

  lemma SoundIds(w: World)
    requires Sound(w)
    ensures IdsMatch(w.vol)
  {
  }

  /** With as many free slots as eligible items, a cycle selects every one of them and no
      other. */
  lemma EveryEligibleItemIsSelected(w: World, facts: map<string, bool>, now: int, capacity: int, id: string)
    requires Sound(w) && w.pc.Loaded?
    requires var p := Next(w, BeginCycle(facts, now, capacity)).vol;
             id in p.items && capacity >= |EligibleIds(p)|
    ensures var n := Next(w, BeginCycle(facts, now, capacity));
            n.pc.Ready? && (id in n.pc.queue <==> Eligible(n.vol.items[id]))
  {
    CyclesBeginExactly(w, facts, now, capacity);
    var p, q := Next(w, BeginCycle(facts, now, capacity)).vol, Next(w, BeginCycle(facts, now, capacity)).pc.queue;
    NobodyIsBusy(w, facts, now, capacity);
    hide Eligible, Begun, Next, Sound;
    WholeSelection(q, p, capacity, id);
  }

  /** So it is with every cycle that begins in any run. */
  lemma EligibleItemsAreSelectedInEveryRun(
    start: int, ls: seq<Label>, facts: map<string, bool>, now: int, capacity: int, id: string)
    requires Exec(Init(start), ls).pc.Loaded?
    requires var p := Next(Exec(Init(start), ls), BeginCycle(facts, now, capacity)).vol;
             id in p.items && capacity >= |EligibleIds(p)|
    ensures var n := Next(Exec(Init(start), ls), BeginCycle(facts, now, capacity));
            n.pc.Ready? && (id in n.pc.queue <==> Eligible(n.vol.items[id]))
  {
    InitIsSound(start);
    RunKeeps(Init(start), ls);
    hide Exec, Init, Sound, Next, Eligible;
    EveryEligibleItemIsSelected(Exec(Init(start), ls), facts, now, capacity, id);
  }

  lemma WholeSelection(q: seq<string>, p: Inventory, capacity: int, id: string)
    requires IsSelection(q, p, capacity) && BusyIds(p) == {} && capacity >= |EligibleIds(p)|
    ensures id in q <==> id in EligibleIds(p)
  {
    hide Eligible, ComesFirst;
    DistinctSize(q, EligibleIds(p));
    SubsetSize((set x | x in q), EligibleIds(p));
    assert (set x | x in q) == EligibleIds(p);
    assert id in q <==> id in (set x | x in q);
  }

  lemma NobodyIsBusy(w: World, facts: map<string, bool>, now: int, capacity: int)
    requires w.pc.Loaded?
    ensures BusyIds(Next(w, BeginCycle(facts, now, capacity)).vol) == {}
  {
    PreparedHasNoActive(w.vol, facts, now);
    hide Prepare, RunnableItems;
    assert BusyIds(Prepare(w.vol, facts, now)) == ActiveIds(Prepare(w.vol, facts, now));
  }

  // ----- A call and its outcome -----

  /** The next selected item is completed if its key has a receipt, and claimed otherwise. */
  lemma ClaimsAreExact(w: World)
    requires Sound(w) && w.pc.Ready? && w.pc.queue != []
    ensures w.pc.queue[0] in w.vol.items
    ensures var id := w.pc.queue[0];
            var it := w.vol.items[id];
            Next(w, Claim) ==
            if KeyOf(it) in w.vol.receipts then
              w.(vol := w.vol.(items := w.vol.items[id := it.(phase := Complete, reason := "", updatedAt := w.pc.now)]),
                 pc := Ready(w.pc.queue[1..], w.pc.now))
            else
              w.(vol := w.vol.(items := w.vol.items[id :=
                   it.(phase := Running, attempts := it.attempts + 1, claimedAt := Some(w.pc.now), updatedAt := w.pc.now)]),
                 pc := Claimed(id, w.pc.queue[1..], w.pc.now))
  {
    hide KeyOf, Candidate, InventoryOk, Succeeds;
  }

  function Delay(attempts: nat): int { if attempts <= 1 then 30 else if attempts == 2 then 60 else 120 }

  lemma DelaysAreExact(attempts: nat)
    ensures BackoffSeconds(attempts) == Delay(attempts)
  {
    if attempts >= 3 {
      PowersGrow(attempts - 1);
    }
  }

  lemma {:induction false} PowersGrow(n: nat)
    requires n >= 2
    ensures Pow2(n) >= 4
  {
    if n > 2 {
      PowersGrow(n - 1);
    }
  }

  function Named(a: string, b: string): string { if a != "" then a else b }

  /** The class of a failure: what the handler says, else what its reason is taken for. */
  function FailureClass(o: Outcome): string { Named(o.retryClass, ClassOf(o.reason)) }

  predicate Retries(o: Outcome)
  {
    o.status != "complete" && o.status != "waiting" && (o.status == "retry" || IsRetryable(FailureClass(o)))
  }

  predicate GivesUp(o: Outcome)
  {
    && o.status != "complete" && o.status != "waiting" && !Retries(o)
    && (IsExternal(FailureClass(o)) || o.status == "external")
  }

  /** What an outcome makes of the item that was running. */
  function SettledItem(it: Item, o: Outcome, now: int): Item
  {
    var noted := it.(lastOutcome := Some(OutcomeRecord(o.status, o.reason, o.retryClass, o.receipt, now)), updatedAt := now);
    if o.status == "complete" then noted.(phase := Complete, reason := "", lastProgressAt := now)
    else if o.status == "waiting" then
      noted.(phase := Waiting, reason := Named(o.reason, "dependency_wait"), dependency := o.dependency)
    else if Retries(o) && it.attempts < (if it.maxAttempts == 0 then 3 else it.maxAttempts) then
      noted.(phase := RetryWait, reason := Named(o.reason, FailureClass(o)), nextAttemptAt := Some(now + Delay(it.attempts)))
    else if Retries(o) then
      noted.(phase := Blocked, reason := "retry_exhausted: " + Named(o.reason, FailureClass(o)))
    else if GivesUp(o) then noted.(phase := FailedExternal, reason := Named(o.reason, FailureClass(o)))
    else noted.(phase := Blocked, reason := Named(o.reason, "unclassified_failure"))
  }

  lemma OutcomesAreAppliedExactly(it: Item, o: Outcome, now: int)
    ensures ApplyOutcome(it, o, now) == SettledItem(it, o, now)
  {
    ClassesAreExact(o.reason);
    DelaysAreExact(it.attempts);
    RetryableClasses(FailureClass(o));
    ExternalClasses(FailureClass(o));
    hide ClassifyReason, ClassOf, BackoffSeconds, Delay, IsRetryable, IsExternal;
  }

  /** The answer of the handler: its receipt, if it gives one, is stored under the key of
      the item with the item's id and the time, the item becomes what the outcome says, and
      nothing else changes. */
  lemma OutcomesAreSettledExactly(w: World, o: Outcome)
    requires Sound(w) && w.pc.InFlight?
    ensures w.pc.id in w.vol.items
    ensures var it := w.vol.items[w.pc.id];
            var n := Next(w, Return(o));
            && n.vol.items == w.vol.items[w.pc.id := SettledItem(it, o, w.pc.now)]
            && n.vol.receipts == (if o.receipt == "" then w.vol.receipts
                                  else w.vol.receipts[KeyOf(it) := Receipt(w.pc.id, o.receipt, w.pc.now)])
            && n.vol == w.vol.(items := n.vol.items, receipts := n.vol.receipts)
            && n.disk == w.disk && n.trace == w.trace && n.pc == Settled(w.pc.id, o, w.pc.queue, w.pc.now)
  {
    RunningItem(w);
    SettlingIsExact(w.vol, w.pc.id, o, w.pc.now);
    ReturnStep(w, o);
    hide Settle, SettledItem, KeyOf, Sound, Next;
  }

  lemma SettlingIsExact(inv: Inventory, id: string, o: Outcome, now: int)
    requires id in inv.items
    ensures Settle(inv, id, o, now)
            == inv.(items := inv.items[id := SettledItem(inv.items[id], o, now)],
                    receipts := if o.receipt == "" then inv.receipts
                                else inv.receipts[KeyOf(inv.items[id]) := Receipt(id, o.receipt, now)])
  {
    OutcomesAreAppliedExactly(inv.items[id], o, now);
    hide ApplyOutcome, SettledItem, KeyOf;
  }

  // ----- The end of a cycle -----

  ghost function IdsOf(inv: Inventory, phase: Phase): set<string>
  {
    set id | id in inv.items && inv.items[id].phase == phase
  }

  /** What each metric counts. */
  lemma MetricsAreExact(inv: Inventory)
    ensures var m := MetricsOf(inv);
            && m.completed == |IdsOf(inv, Complete)|
            && m.active == |IdsOf(inv, Running)| + |IdsOf(inv, Verifying)|
            && m.waiting == |IdsOf(inv, Waiting)|
            && m.blocked == |IdsOf(inv, Blocked)| + |IdsOf(inv, FailedExternal)|
            && m.retrying == |IdsOf(inv, RetryWait)|
            && m.runnable == |EligibleIds(inv)|
  {
    hide IdsIn, IdsOf, ReadyIds, EligibleIds, Candidate, Eligible;
    OnePhase(inv, Complete);
    OnePhase(inv, Waiting);
    OnePhase(inv, RetryWait);
    TwoPhases(inv, Running, Verifying);
    TwoPhases(inv, Blocked, FailedExternal);
    ReadyAreEligible(inv);
  }

  lemma OnePhase(inv: Inventory, p: Phase)
    ensures IdsIn(inv, {p}) == IdsOf(inv, p)
  {
  }

  lemma TwoPhases(inv: Inventory, p: Phase, q: Phase)
    requires p != q
    ensures |IdsIn(inv, {p, q})| == |IdsOf(inv, p)| + |IdsOf(inv, q)|
  {
    assert IdsIn(inv, {p, q}) == IdsOf(inv, p) + IdsOf(inv, q);
    assert IdsOf(inv, p) !! IdsOf(inv, q);
  }

  lemma ReadyAreEligible(inv: Inventory)
    ensures ReadyIds(inv) == EligibleIds(inv)
  {
    forall it: Item ensures Candidate(it) <==> Eligible(it) { CandidatesAreEligible(it); }
    hide Candidate, Eligible;
  }

  /** The percentage is the share of complete items, rounded down. */
  lemma ProgressIsTheShareRoundedDown(inv: Inventory)
    ensures inv.items == map[] ==> ProgressPercent(inv) == 0
    ensures inv.items != map[] ==>
              ProgressPercent(inv) * |inv.items| <= 100 * |IdsOf(inv, Complete)| < (ProgressPercent(inv) + 1) * |inv.items|
  {
    assert IdsIn(inv, {Complete}) == IdsOf(inv, Complete);
    if inv.items != map[] {
      assert inv.items.Keys != {} && |inv.items| == |inv.items.Keys|;
      var done, n := 100 * |IdsOf(inv, Complete)|, |inv.items|;
      assert done == done / n * n + done % n;
      assert (done / n + 1) * n == done / n * n + n;
    }
  }

  /** The end of a cycle: the metrics and the time are written, then all of memory. */
  lemma CyclesEndExactly(w: World)
    requires w.pc.Ready? && w.pc.queue == []
    ensures var f := Next(w, Finish);
            && f == w.(vol := w.vol.(metrics := f.vol.metrics, updatedAt := w.pc.now), pc := Finished)
            && f.vol.metrics == MetricsOf(w.vol)
            && Next(f, Persist) == World(f.vol, f.vol, Down, w.trace + [FinalSaved])
  {
    hide MetricsOf;
  }

  /** The write before a call saves the claim. */
  lemma ClaimsAreSavedExactly(w: World)
    requires w.pc.Claimed?
    ensures Next(w, CheckpointClaim)
            == World(w.vol, w.vol, ClaimOnDisk(w.pc.id, w.pc.queue, w.pc.now), w.trace + [ClaimSaved(w.pc.id)])
  {
  }

  /** The write after a call saves its outcome. */
  lemma OutcomesAreSavedExactly(w: World)
    requires Sound(w) && w.pc.Settled?
    ensures w.pc.id in w.vol.items
    ensures Next(w, CheckpointOutcome)
            == World(w.vol, w.vol, Ready(w.pc.queue, w.pc.now), w.trace + [OutcomeSaved(w.vol.items[w.pc.id], w.pc.outcome)])
  {
    hide Prepare, RunnableItems, AdmitWork, RecordApproval, ClaimHead, FinishCycle, InventoryOk, Succeeds, QueueOk, Settle,
      KeyOf, OnlyActive, NoActive;
    SettledId(w);
  }

  /** A crash leaves the file alone, and a start reads it. */
  lemma CrashesLeaveTheFile(w: World)
    ensures Next(w, Crash) == World(w.disk, w.disk, Down, w.trace + [Crashed])
    ensures w.pc.Down? ==> Next(w, Start) == World(w.disk, w.disk, Loaded, w.trace)
  {
  }
}
