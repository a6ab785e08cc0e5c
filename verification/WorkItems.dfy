/** The durable work inventory of the PMV3 engine (tools/pmv3_work_engine.py) as
    values: items, receipts, and every rule that rewrites one item or the whole
    inventory. Times are whole seconds. */
module WorkItems {
  import opened Wrappers
  import Text

  datatype Fault =
    | WorkIdRequired
    | WorkActionRequired
    | NotFromTeams
    | UnverifiedApproval
    | UnknownItem
    | RequestMismatch
    | InvalidDecision

  datatype Result<+T> = Ok(value: T) | Err(fault: Fault)

  datatype Phase =
    | Runnable
    | Running
    | Verifying
    | Waiting
    | RetryWait
    | Blocked
    | Complete
    | FailedExternal

  predicate Active(p: Phase) { p == Running || p == Verifying }

  predicate Terminal(p: Phase) { p == Complete || p == FailedExternal }

  /** What a handler answers. Empty strings stand for absent fields. */
  datatype Outcome = Outcome(status: string, reason: string, retryClass: string, dependency: string, receipt: string)

  datatype OutcomeRecord = OutcomeRecord(status: string, reason: string, retryClass: string, receipt: string, at: int)

  datatype Approval = Approval(
    channel: string, requestId: string, decision: string,
    actorId: string, tenantId: string, receiptId: string, verified: bool)

  datatype Item = Item(
    id: string,
    action: string,
    priority: int,
    approved: bool,
    approvalRequired: bool,
    approvalRequestId: string,
    approval: Option<Approval>,
    idempotent: bool,
    phase: Phase,
    reason: string,
    dependency: string,
    generation: nat,
    attempts: nat,
    maxAttempts: nat,
    nextAttemptAt: Option<int>,
    claimedAt: Option<int>,
    updatedAt: int,
    lastProgressAt: int,
    lastOutcome: Option<OutcomeRecord>)

  datatype Receipt = Receipt(itemId: string, receipt: string, recordedAt: int)

  datatype Metrics = Metrics(completed: nat, active: nat, waiting: nat, blocked: nat, retrying: nat, runnable: nat)

  /** The dictionary the engine keeps in its state file. */
  datatype Inventory = Inventory(
    cycle: nat, updatedAt: int, items: map<string, Item>, receipts: map<string, Receipt>, metrics: Metrics)

  const NO_METRICS := Metrics(0, 0, 0, 0, 0, 0)

  function EmptyInventory(now: int): Inventory
  {
    Inventory(0, now, map[], map[], NO_METRICS)
  }

  // ----- Identity of an action -----

  /** The pre-image of the action key; the digest over it is taken to be injective. */
  function ActionKey(id: string, action: string, generation: nat): string
  {
    id + "|" + action + "|" + Text.Decimal(generation)
  }

  function KeyOf(it: Item): string
  {
    ActionKey(it.id, it.action, if it.generation == 0 then 1 else it.generation)
  }

  // ----- Admission -----

  /** One entry of the work input file, after its fields were read with their defaults. */
  datatype WorkInput = WorkInput(
    id: string, action: string, priority: int, approved: bool, dependency: string,
    approvalRequired: bool, approvalRequestId: string, idempotent: bool)

  function MakeItem(w: WorkInput, now: int): Item
  {
    Item(w.id, w.action, if w.priority == 0 then 100 else w.priority, w.approved, w.approvalRequired,
         w.approvalRequestId, None, w.idempotent,
         if w.dependency != "" then Waiting else Runnable,
         if w.dependency != "" then "dependency_wait" else "",
         w.dependency, 1, 0, 3, None, None, now, now, None)
  }

  /** An entry without action or id stops the ingestion; a known id is left alone. */
  function AdmitWork(inv: Inventory, w: WorkInput, now: int): Result<Inventory>
  {
    if w.action == "" then Err(WorkActionRequired)
    else if w.id == "" then Err(WorkIdRequired)
    else if w.id in inv.items then Ok(inv)
    else Ok(inv.(items := inv.items[w.id := MakeItem(w, now)]))
  }

  // ----- Approval -----

  datatype ApprovalInput = ApprovalInput(
    itemId: string, requestId: string, decision: string, actorId: string,
    tenantId: string, receiptId: string, verified: bool, channel: string)

  function ApprovalOf(a: ApprovalInput): Approval
  {
    Approval("teams", a.requestId, Text.Strip(Text.Lower(a.decision)), a.actorId, a.tenantId, a.receiptId, true)
  }

  function RecordApproval(inv: Inventory, a: ApprovalInput): Result<Inventory>
  {
    if a.channel != "teams" then Err(NotFromTeams)
    else if !a.verified then Err(UnverifiedApproval)
    else if a.itemId !in inv.items then Err(UnknownItem)
    else
      var it := inv.items[a.itemId];
      if it.approvalRequestId == "" || a.requestId != it.approvalRequestId then Err(RequestMismatch)
      else if ApprovalOf(a).decision !in {"approve", "deny"} then Err(InvalidDecision)
      else Ok(inv.(items := inv.items[a.itemId := it.(approval := Some(ApprovalOf(a)))]))
  }

  predicate ApprovalSatisfied(it: Item)
  {
    it.approvalRequired ==>
      && it.approval.Some?
      && var a := it.approval.value;
         && a.channel == "teams"
         && a.verified
         && a.decision == "approve"
         && a.requestId == it.approvalRequestId
         && a.actorId != ""
         && a.tenantId != ""
         && a.receiptId != ""
  }

  // ----- Failure classes and backoff -----

  const RETRYABLE := {
    "http_transport_failed", "connector_transport_error", "provider_timeout", "connection_reset",
    "temporary_unavailable", "rate_limited", "validation_failed"
  }

  const EXTERNAL := {
    "credentials_required", "provider_license_required", "billing_exhausted",
    "owner_approval_required", "tenant_permission_required"
  }

  function ClassifyReason(reason: string): string
  {
    var text := Text.Lower(reason);
    if Text.ContainsAny(text, ["http transport", "connectortransporterror", "provider timeout", "connection reset"]) then
      "http_transport_failed"
    else if Text.ContainsAny(text, ["rate limit", "429"]) then
      if Text.ContainsAny(text, ["insufficient_quota", "credit_balance_exhausted"]) then "billing_exhausted"
      else "rate_limited"
    else if Text.ContainsAny(text, ["credential", "api details", "tenant permission", "license required"]) then
      "credentials_required"
    else if Text.ContainsAny(text, ["regression test", "ci failure", "test failed", "validation failed"]) then
      "validation_failed"
    else if Text.ContainsAny(text, ["owner approval", "explicit approval", "authorization required"]) then
      "owner_approval_required"
    else
      "unknown"
  }

  predicate RetryableReason(reason: string)
  {
    ClassifyReason(reason) in RETRYABLE
  }

  function Pow2(n: nat): nat
  {
    if n == 0 then 1 else 2 * Pow2(n - 1)
  }

  function Min(a: int, b: int): int { if a < b then a else b }

  function Max(a: int, b: int): int { if a < b then b else a }

  function BackoffSeconds(attempts: nat): int
  {
    Min(120, 30 * Pow2(Max(0, attempts - 1)))
  }

  // ----- Recovery and re-evaluation at the start of a cycle -----

  function Reconciliation(): string { "reconciliation_required" }

  function InterruptedIdempotent(): string { "recovered_after_interrupted_idempotent_execution" }

  function InterruptedUnknown(): string { "indeterminate_execution_requires_reconciliation" }

  /** An item found active was interrupted: finish it from its receipt, run it
      again if that is harmless, otherwise park it for reconciliation. */
  function RecoverItem(it: Item, receipts: map<string, Receipt>, now: int): Item
  {
    if !Active(it.phase) then it
    else
      var parked :=
        if KeyOf(it) in receipts then it.(phase := Complete, reason := "")
        else if it.idempotent then
          it.(phase := Runnable, reason := InterruptedIdempotent())
        else
          it.(phase := Waiting, reason := InterruptedUnknown(), dependency := Reconciliation());
      parked.(claimedAt := None, updatedAt := now)
  }

  function Recover(inv: Inventory, now: int): Inventory
  {
    inv.(items := map id | id in inv.items :: RecoverItem(inv.items[id], inv.receipts, now))
  }

  predicate Holds(facts: map<string, bool>, fact: string)
  {
    fact in facts && facts[fact]
  }

  predicate DependencySatisfied(it: Item, facts: map<string, bool>)
  {
    it.dependency == "" || Holds(facts, it.dependency)
  }

  function RecheckItem(it: Item, facts: map<string, bool>, now: int): Item
  {
    match it.phase
    case Waiting =>
      if DependencySatisfied(it, facts) then
        it.(phase := Runnable, reason := "", dependency := "", updatedAt := now, lastProgressAt := now)
      else it
    case RetryWait =>
      if it.nextAttemptAt.Some? && it.nextAttemptAt.value <= now then
        it.(phase := Runnable, reason := "", nextAttemptAt := None, updatedAt := now)
      else it
    case Blocked =>
      if RetryableReason(it.reason) then it.(phase := Runnable, reason := "", updatedAt := now) else it
    case _ => it
  }

  function Recheck(inv: Inventory, facts: map<string, bool>, now: int): Inventory
  {
    inv.(items := map id | id in inv.items :: RecheckItem(inv.items[id], facts, now))
  }

  /** The inventory a cycle selects from. */
  function Prepare(inv: Inventory, facts: map<string, bool>, now: int): Inventory
  {
    Recheck(Recover(inv.(cycle := inv.cycle + 1), now), facts, now)
  }

  // ----- Claim and outcome -----

  function CompleteFromReceipt(it: Item, now: int): Item
  {
    it.(phase := Complete, reason := "", updatedAt := now)
  }

  function ClaimItem(it: Item, now: int): Item
  {
    it.(phase := Running, attempts := it.attempts + 1, claimedAt := Some(now), updatedAt := now)
  }

  function FirstNonEmpty(a: string, b: string): string
  {
    if a != "" then a else b
  }

  function EffectiveMaxAttempts(it: Item): nat
  {
    if it.maxAttempts == 0 then 3 else it.maxAttempts
  }

  /** Where an outcome that is neither completion nor waiting sends an item, given
      its failure class. */
  function ApplyFailure(it: Item, o: Outcome, retryClass: string, now: int): Item
  {
    if o.status == "retry" || retryClass in RETRYABLE then
      if it.attempts < EffectiveMaxAttempts(it) then
        it.(phase := RetryWait, reason := FirstNonEmpty(o.reason, retryClass),
            nextAttemptAt := Some(now + BackoffSeconds(it.attempts)))
      else
        it.(phase := Blocked, reason := "retry_exhausted: " + FirstNonEmpty(o.reason, retryClass))
    else if retryClass in EXTERNAL || o.status == "external" then
      it.(phase := FailedExternal, reason := FirstNonEmpty(o.reason, retryClass))
    else
      it.(phase := Blocked, reason := FirstNonEmpty(o.reason, "unclassified_failure"))
  }

  function ApplyOutcome(it: Item, o: Outcome, now: int): Item
  {
    var stored := it.(lastOutcome := Some(OutcomeRecord(o.status, o.reason, o.retryClass, o.receipt, now)),
                      updatedAt := now);
    if o.status == "complete" then
      stored.(phase := Complete, reason := "", lastProgressAt := now)
    else if o.status == "waiting" then
      stored.(phase := Waiting, reason := FirstNonEmpty(o.reason, "dependency_wait"), dependency := o.dependency)
    else
      ApplyFailure(stored, o, FirstNonEmpty(o.retryClass, ClassifyReason(o.reason)), now)
  }

  /** Receipt and outcome of one handler call, written into the inventory. */
  function Settle(inv: Inventory, id: string, o: Outcome, now: int): Inventory
    requires id in inv.items
  {
    var it := inv.items[id];
    inv.(items := inv.items[id := ApplyOutcome(it, o, now)],
         receipts := if o.receipt == "" then inv.receipts
                     else inv.receipts[KeyOf(it) := Receipt(id, o.receipt, now)])
  }

  // ----- Selection -----

  predicate Candidate(it: Item)
  {
    it.phase == Runnable && it.approved && ApprovalSatisfied(it)
  }

  /** The sort key of the selection. */
  datatype Rank = Rank(priority: int, updatedAt: int, id: string)

  function RankOf(it: Item): Rank
  {
    Rank(if it.priority == 0 then 100 else it.priority, it.updatedAt, it.id)
  }

  predicate Before(a: Rank, b: Rank)
  {
    || a.priority < b.priority
    || (a.priority == b.priority && a.updatedAt < b.updatedAt)
    || (a.priority == b.priority && a.updatedAt == b.updatedAt && Text.Less(a.id, b.id))
  }

  lemma BeforeIsTotal(a: Rank, b: Rank)
    ensures a == b || Before(a, b) || Before(b, a)
  {
    Text.LessIsTotal(a.id, b.id);
  }

  lemma BeforeIsAsymmetric(a: Rank, b: Rank)
    ensures !(Before(a, b) && Before(b, a))
  {
    Text.LessIsAsymmetric(a.id, b.id);
  }

  lemma BeforeIsTransitive(a: Rank, b: Rank, c: Rank)
    requires Before(a, b) && Before(b, c)
    ensures Before(a, c)
  {
    if a.priority == b.priority == c.priority && a.updatedAt == b.updatedAt == c.updatedAt {
      Text.LessIsTransitive(a.id, b.id, c.id);
    }
  }

  predicate IsLeast(m: Rank, s: set<Rank>)
  {
    m in s && forall x | x in s :: x == m || Before(m, x)
  }

  lemma {:induction false} LeastExists(s: set<Rank>)
    requires s != {}
    ensures exists m | m in s :: IsLeast(m, s)
  {
    var x :| x in s;
    if s == {x} {
      assert IsLeast(x, s);
    } else {
      var rest := s - {x};
      assert rest == {} ==> s == {x};
      LeastExists(rest);
      var m :| m in rest && IsLeast(m, rest);
      BeforeIsTotal(x, m);
      if Before(x, m) {
        forall y | y in s ensures y == x || Before(x, y) {
          if y != x && y != m { BeforeIsTransitive(x, m, y); }
        }
        assert IsLeast(x, s);
      } else {
        assert IsLeast(m, s);
      }
    }
  }

  lemma LeastIsUnique(s: set<Rank>)
    ensures forall m, n | IsLeast(m, s) && IsLeast(n, s) :: m == n
  {
    forall m, n | IsLeast(m, s) && IsLeast(n, s) ensures m == n {
      BeforeIsAsymmetric(m, n);
    }
  }

  /** The members of a set in ascending order. */
  function SortRanks(s: set<Rank>): (r: seq<Rank>)
    ensures |r| == |s|
    ensures forall x :: x in r <==> x in s
    ensures forall i, j | 0 <= i < j < |r| :: Before(r[i], r[j])
  {
    if s == {} then []
    else
      LeastExists(s);
      LeastIsUnique(s);
      var m :| m in s && IsLeast(m, s);
      [m] + SortRanks(s - {m})
  }

  function ActiveIds(inv: Inventory): set<string>
  {
    set id | id in inv.items && Active(inv.items[id].phase)
  }

  function CandidateRanks(inv: Inventory): set<Rank>
  {
    set id | id in inv.items && Candidate(inv.items[id]) :: RankOf(inv.items[id])
  }

  function Slots(inv: Inventory, capacity: int): nat
  {
    Max(0, capacity - |ActiveIds(inv)|)
  }

  /** The ids selected for execution, in order. */
  function RunnableItems(inv: Inventory, capacity: int): (q: seq<string>)
    ensures |q| <= Slots(inv, capacity)
  {
    var sorted := SortRanks(CandidateRanks(inv));
    var n := Min(Slots(inv, capacity), |sorted|);
    seq(n, i requires 0 <= i < n => sorted[i].id)
  }

  // ----- Metrics -----

  function IdsIn(inv: Inventory, phases: set<Phase>): set<string>
  {
    set id | id in inv.items && inv.items[id].phase in phases
  }

  function ReadyIds(inv: Inventory): set<string>
  {
    set id | id in inv.items && Candidate(inv.items[id])
  }

  function MetricsOf(inv: Inventory): Metrics
  {
    Metrics(
      |IdsIn(inv, {Complete})|,
      |IdsIn(inv, {Running, Verifying})|,
      |IdsIn(inv, {Waiting})|,
      |IdsIn(inv, {Blocked, FailedExternal})|,
      |IdsIn(inv, {RetryWait})|,
      |ReadyIds(inv)|)
  }

  function ProgressPercent(inv: Inventory): nat
  {
    if inv.items == map[] then 0 else |IdsIn(inv, {Complete})| * 100 / |inv.items|
  }

  lemma SubsetSize<T>(a: set<T>, b: set<T>)
    requires a <= b
    ensures |a| <= |b|
    ensures |a| == |b| ==> a == b
  {
    assert b == a + (b - a) && |b| == |a| + |b - a|;
  }
}
