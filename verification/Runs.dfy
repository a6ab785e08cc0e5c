/** The PMV3 scheduler process as a state machine whose steps are the statements
    around a handler call (tools/pmv3_work_engine.py, tools/pmv3_scheduler.py).
    The state file survives a crash, the inventory in memory does not. A run is
    any sequence of labels; a label that does not apply leaves the world alone. */
module Runs {
  import opened Wrappers
  import opened WorkItems

  /** What happened, in order. The trace belongs to the observer, not to the process. */
  datatype Event =
    | TakenIn(work: WorkInput, at: int)
    | Recorded(itemId: string, approval: Approval)
    | CycleBegan(facts: map<string, bool>, now: int, capacity: int, prepared: Inventory)
    | ClaimSaved(itemId: string)
    | Invoked(item: Item, key: string, now: int)
    | OutcomeSaved(item: Item, outcome: Outcome)
    | FinalSaved
    | Crashed

  datatype Pc =
    | Down
    | Loaded
    | Ready(queue: seq<string>, now: int)
    | Claimed(id: string, queue: seq<string>, now: int)
    | ClaimOnDisk(id: string, queue: seq<string>, now: int)
    | InFlight(id: string, queue: seq<string>, now: int)
    | Settled(id: string, outcome: Outcome, queue: seq<string>, now: int)
    | Finished

  datatype World = World(disk: Inventory, vol: Inventory, pc: Pc, trace: seq<Event>)

  datatype Label =
    | Start
    | Admit(work: WorkInput, at: int)
    | Approve(entry: ApprovalInput)
    | BeginCycle(facts: map<string, bool>, now: int, capacity: int)
    | Claim
    | CheckpointClaim
    | Invoke
    | Return(outcome: Outcome)
    | CheckpointOutcome
    | Finish
    | Persist
    | Crash

  function Init(now: int): World
  {
    World(EmptyInventory(now), EmptyInventory(now), Down, [])
  }

  /** The process dies: only the state file is left. Any exception ends the same way. */
  function Die(w: World): World
  {
    World(w.disk, w.disk, Down, w.trace + [Crashed])
  }

  function ClaimHead(w: World): World
    requires w.pc.Ready? && w.pc.queue != [] && w.pc.queue[0] in w.vol.items
  {
    var id, rest, now := w.pc.queue[0], w.pc.queue[1..], w.pc.now;
    var it := w.vol.items[id];
    if KeyOf(it) in w.vol.receipts then
      w.(vol := w.vol.(items := w.vol.items[id := CompleteFromReceipt(it, now)]), pc := Ready(rest, now))
    else
      w.(vol := w.vol.(items := w.vol.items[id := ClaimItem(it, now)]), pc := Claimed(id, rest, now))
  }

  function FinishCycle(inv: Inventory, now: int): Inventory
  {
    inv.(metrics := MetricsOf(inv), updatedAt := now)
  }

  function Next(w: World, l: Label): World
  {
    match l
    case Start =>
      if w.pc.Down? then w.(vol := w.disk, pc := Loaded) else w
    case Admit(work, at) =>
      if !w.pc.Loaded? then w
      else (match AdmitWork(w.vol, work, at)
            case Ok(inv) => w.(vol := inv, trace := w.trace + [TakenIn(work, at)])
            case Err(_) => Die(w))
    case Approve(entry) =>
      if !w.pc.Loaded? then w
      else (match RecordApproval(w.vol, entry)
            case Ok(inv) => w.(vol := inv, trace := w.trace + [Recorded(entry.itemId, ApprovalOf(entry))])
            case Err(_) => Die(w))
    case BeginCycle(facts, now, capacity) =>
      if !w.pc.Loaded? then w
      else
        var prepared := Prepare(w.vol, facts, now);
        w.(vol := prepared, pc := Ready(RunnableItems(prepared, capacity), now),
           trace := w.trace + [CycleBegan(facts, now, capacity, prepared)])
    case Claim =>
      if w.pc.Ready? && w.pc.queue != [] && w.pc.queue[0] in w.vol.items then ClaimHead(w) else w
    case CheckpointClaim =>
      if w.pc.Claimed? then
        World(w.vol, w.vol, ClaimOnDisk(w.pc.id, w.pc.queue, w.pc.now), w.trace + [ClaimSaved(w.pc.id)])
      else w
    case Invoke =>
      if w.pc.ClaimOnDisk? && w.pc.id in w.vol.items then
        var it := w.vol.items[w.pc.id];
        w.(pc := InFlight(w.pc.id, w.pc.queue, w.pc.now), trace := w.trace + [Invoked(it, KeyOf(it), w.pc.now)])
      else w
    case Return(outcome) =>
      if w.pc.InFlight? && w.pc.id in w.vol.items then
        w.(vol := Settle(w.vol, w.pc.id, outcome, w.pc.now), pc := Settled(w.pc.id, outcome, w.pc.queue, w.pc.now))
      else w
    case CheckpointOutcome =>
      if w.pc.Settled? && w.pc.id in w.vol.items then
        World(w.vol, w.vol, Ready(w.pc.queue, w.pc.now),
              w.trace + [OutcomeSaved(w.vol.items[w.pc.id], w.pc.outcome)])
      else w
    case Finish =>
      if w.pc.Ready? && w.pc.queue == [] then w.(vol := FinishCycle(w.vol, w.pc.now), pc := Finished) else w
    case Persist =>
      if w.pc.Finished? then World(w.vol, w.vol, Down, w.trace + [FinalSaved]) else w
    case Crash =>
      Die(w)
  }

  /** The world after a run. */
  function Exec(w: World, ls: seq<Label>): World
    decreases |ls|
  {
    if ls == [] then w else Next(Exec(w, ls[..|ls| - 1]), ls[|ls| - 1])
  }

  lemma {:induction false} ExecConcat(w: World, a: seq<Label>, b: seq<Label>)
    ensures Exec(w, a + b) == Exec(Exec(w, a), b)
    decreases |b|
  {
    if b == [] {
      assert a + b == a;
    } else {
      assert (a + b)[..|a + b| - 1] == a + b[..|b| - 1];
      ExecConcat(w, a, b[..|b| - 1]);
    }
  }

  // ----- What every inventory in a run satisfies -----

  ghost predicate ItemOk(it: Item)
  {
    && it.id != ""
    && it.generation == 1
    && it.maxAttempts == 3
    && it.phase != Verifying
    && (Active(it.phase) ==> it.attempts >= 1)
    && (it.approval.Some? ==>
          && it.approvalRequestId != ""
          && it.approval.value.requestId == it.approvalRequestId
          && it.approval.value.channel == "teams"
          && it.approval.value.verified)
    && RetryOk(it)
  }

  /** A retry is scheduled only below the attempt limit, and its due time is the
      time of the last outcome plus the backoff. */
  ghost predicate RetryOk(it: Item)
  {
    it.phase == RetryWait ==>
      && 1 <= it.attempts < it.maxAttempts
      && it.lastOutcome.Some?
      && it.nextAttemptAt == Some(it.lastOutcome.value.at + BackoffSeconds(it.attempts))
      && it.updatedAt == it.lastOutcome.value.at
  }

  ghost predicate ItemsOk(inv: Inventory)
  {
    forall id | id in inv.items :: inv.items[id].id == id && ItemOk(inv.items[id])
  }

  ghost predicate IsActive(inv: Inventory, id: string)
  {
    id in inv.items && Active(inv.items[id].phase)
  }

  ghost predicate NoActive(inv: Inventory)
  {
    forall id :: !IsActive(inv, id)
  }

  ghost predicate OnlyActive(inv: Inventory, id: string)
  {
    forall x :: IsActive(inv, x) <==> x == id
  }

  ghost predicate AtMostOneActive(inv: Inventory)
  {
    forall a, b | IsActive(inv, a) && IsActive(inv, b) :: a == b
  }

  ghost predicate ActiveHasNoReceipt(inv: Inventory)
  {
    forall id | IsActive(inv, id) :: KeyOf(inv.items[id]) !in inv.receipts
  }

  ghost predicate InventoryOk(inv: Inventory)
  {
    ItemsOk(inv) && AtMostOneActive(inv) && ActiveHasNoReceipt(inv)
  }

  ghost predicate QueueOk(q: seq<string>, inv: Inventory)
  {
    && (forall i | 0 <= i < |q| :: q[i] in inv.items && Candidate(inv.items[q[i]]))
    && (forall i, j | 0 <= i < j < |q| :: q[i] != q[j])
  }

  /** The parts of an item that admission fixes. */
  ghost predicate SameIdentity(a: Item, b: Item)
  {
    && a.id == b.id && a.action == b.action && a.priority == b.priority && a.approved == b.approved
    && a.approvalRequired == b.approvalRequired && a.approvalRequestId == b.approvalRequestId
    && a.idempotent == b.idempotent && a.generation == b.generation && a.maxAttempts == b.maxAttempts
  }

  ghost predicate ItemSucceeds(a: Item, b: Item)
  {
    && SameIdentity(a, b)
    && a.attempts <= b.attempts
    && (Terminal(a.phase) ==> b.phase == a.phase)
  }

  /** b is a later inventory of the same lineage as a: nothing is forgotten. */
  ghost predicate Succeeds(a: Inventory, b: Inventory)
  {
    && (forall k | k in a.receipts :: k in b.receipts && b.receipts[k] == a.receipts[k])
    && (forall id | id in a.items :: id in b.items && ItemSucceeds(a.items[id], b.items[id]))
  }

  lemma SucceedsIsTransitive(a: Inventory, b: Inventory, c: Inventory)
    requires Succeeds(a, b) && Succeeds(b, c)
    ensures Succeeds(a, c)
  {
    forall id | id in a.items ensures id in c.items && ItemSucceeds(a.items[id], c.items[id]) {
      assert ItemSucceeds(a.items[id], b.items[id]) && ItemSucceeds(b.items[id], c.items[id]);
    }
  }

  ghost predicate PcOk(w: World)
  {
    match w.pc
    case Down => w.vol == w.disk
    case Loaded => true
    case Ready(q, _) => NoActive(w.vol) && QueueOk(q, w.vol)
    case Claimed(id, q, _) => OnlyActive(w.vol, id) && QueueOk(q, w.vol)
    case ClaimOnDisk(id, q, _) => w.disk == w.vol && OnlyActive(w.vol, id) && QueueOk(q, w.vol)
    case InFlight(id, q, _) => w.disk == w.vol && OnlyActive(w.vol, id) && QueueOk(q, w.vol)
    case Settled(id, o, q, now) =>
      && NoActive(w.vol) && QueueOk(q, w.vol) && id in w.disk.items && OnlyActive(w.disk, id)
      && w.vol == Settle(w.disk, id, o, now)
    case Finished => NoActive(w.vol)
  }

  ghost predicate Sound(w: World)
  {
    InventoryOk(w.disk) && InventoryOk(w.vol) && Succeeds(w.disk, w.vol) && PcOk(w)
  }

  // ----- One item, one rule at a time -----

  lemma RecoverItemKeeps(it: Item, receipts: map<string, Receipt>, now: int)
    requires ItemOk(it)
    ensures var r := RecoverItem(it, receipts, now);
            ItemOk(r) && ItemSucceeds(it, r) && !Active(r.phase)
  {
    hide KeyOf, Reconciliation, InterruptedIdempotent, InterruptedUnknown;
  }

  lemma RecheckItemKeeps(it: Item, facts: map<string, bool>, now: int)
    requires ItemOk(it)
    ensures var r := RecheckItem(it, facts, now);
            ItemOk(r) && ItemSucceeds(it, r) && (Active(r.phase) <==> Active(it.phase))
  {
    hide RetryableReason;
  }

  lemma ApplyFailureKeeps(it: Item, o: Outcome, retryClass: string, now: int)
    requires 1 <= it.attempts && it.maxAttempts == 3
    requires it.lastOutcome.Some? && it.lastOutcome.value.at == now == it.updatedAt
    ensures var r := ApplyFailure(it, o, retryClass, now);
            && r == it.(phase := r.phase, reason := r.reason, nextAttemptAt := r.nextAttemptAt)
            && r.phase in {RetryWait, Blocked, FailedExternal}
            && RetryOk(r)
  {
    hide BackoffSeconds;
  }

  lemma ApplyOutcomeKeeps(it: Item, o: Outcome, now: int)
    requires ItemOk(it) && it.phase == Running && it.attempts >= 1
    ensures var r := ApplyOutcome(it, o, now);
            ItemOk(r) && ItemSucceeds(it, r) && !Active(r.phase) && r.phase != Runnable
  {
    hide ClassifyReason, ApplyFailure;
    var stored := it.(lastOutcome := Some(OutcomeRecord(o.status, o.reason, o.retryClass, o.receipt, now)),
                      updatedAt := now);
    ApplyFailureKeeps(stored, o, FirstNonEmpty(o.retryClass, ClassifyReason(o.reason)), now);
  }

  // ----- Whole inventories -----

  lemma PrepareKeeps(inv: Inventory, facts: map<string, bool>, now: int)
    requires InventoryOk(inv)
    ensures var p := Prepare(inv, facts, now);
            InventoryOk(p) && NoActive(p) && Succeeds(inv, p)
  {
    hide KeyOf, RetryableReason, RecoverItem, RecheckItem, RetryOk;
    var p := Prepare(inv, facts, now);
    forall id | id in inv.items
      ensures id in p.items && p.items[id].id == id && ItemOk(p.items[id])
      ensures ItemSucceeds(inv.items[id], p.items[id]) && !Active(p.items[id].phase)
    {
      var r := RecoverItem(inv.items[id], inv.receipts, now);
      RecoverItemKeeps(inv.items[id], inv.receipts, now);
      RecheckItemKeeps(r, facts, now);
    }
  }

  lemma SelectionIsQueue(inv: Inventory, capacity: int)
    requires ItemsOk(inv)
    ensures QueueOk(RunnableItems(inv, capacity), inv)
  {
    hide ItemOk, Candidate;
    var sorted := SortRanks(CandidateRanks(inv));
    var q := RunnableItems(inv, capacity);
    forall i | 0 <= i < |q| ensures q[i] in inv.items && Candidate(inv.items[q[i]]) && sorted[i] == RankOf(inv.items[q[i]]) {
      assert sorted[i] in CandidateRanks(inv);
    }
    forall i, j | 0 <= i < j < |q| ensures q[i] != q[j] {
      BeforeIsAsymmetric(sorted[i], sorted[j]);
    }
  }

  lemma ReplaceKeeps(inv: Inventory, id: string, it: Item)
    requires ItemsOk(inv) && id in inv.items && ItemOk(it) && ItemSucceeds(inv.items[id], it)
    ensures var r := inv.(items := inv.items[id := it]);
            ItemsOk(r) && Succeeds(inv, r)
  {
    assert inv.items[id].id == id;
  }

  lemma AdmitSucceeds(inv: Inventory, work: WorkInput, at: int)
    requires AdmitWork(inv, work, at).Ok?
    ensures Succeeds(inv, AdmitWork(inv, work, at).value)
  {
    hide MakeItem;
  }

  lemma AdmitKeeps(inv: Inventory, work: WorkInput, at: int)
    requires InventoryOk(inv) && AdmitWork(inv, work, at).Ok?
    ensures var r := AdmitWork(inv, work, at).value; InventoryOk(r) && Succeeds(inv, r)
  {
    hide ActionKey, Succeeds;
    assert Succeeds(inv, AdmitWork(inv, work, at).value) by { AdmitSucceeds(inv, work, at); }
    var r := AdmitWork(inv, work, at).value;
    forall id | IsActive(r, id) ensures IsActive(inv, id) && r.items[id] == inv.items[id] { }
  }

  lemma RecordKeeps(inv: Inventory, entry: ApprovalInput)
    requires InventoryOk(inv) && RecordApproval(inv, entry).Ok?
    ensures var r := RecordApproval(inv, entry).value; InventoryOk(r) && Succeeds(inv, r)
  {
    var r := RecordApproval(inv, entry).value;
    ReplaceKeeps(inv, entry.itemId, r.items[entry.itemId]);
    forall id | IsActive(r, id) ensures IsActive(inv, id) && KeyOf(r.items[id]) == KeyOf(inv.items[id]) { }
  }

  /** What the queue still needs when its head is taken out of `Runnable`. */
  lemma TailIsQueue(q: seq<string>, inv: Inventory, it: Item)
    requires QueueOk(q, inv) && q != []
    ensures QueueOk(q[1..], inv.(items := inv.items[q[0] := it]))
  {
    hide Candidate;
    var r := inv.(items := inv.items[q[0] := it]);
    forall i | 0 <= i < |q| - 1 ensures q[1..][i] in r.items && Candidate(r.items[q[1..][i]]) {
      assert q[i + 1] != q[0];
    }
  }

  lemma HeadIsCandidate(q: seq<string>, inv: Inventory)
    requires QueueOk(q, inv) && q != []
    ensures q[0] in inv.items && Candidate(inv.items[q[0]])
  {
  }

  /** Claiming a runnable item without a receipt makes it the one active item. */
  lemma ClaimKeepsInventory(inv: Inventory, id: string, now: int)
    requires ItemsOk(inv) && NoActive(inv)
    requires id in inv.items && inv.items[id].phase == Runnable && KeyOf(inv.items[id]) !in inv.receipts
    ensures var r := inv.(items := inv.items[id := ClaimItem(inv.items[id], now)]);
            InventoryOk(r) && OnlyActive(r, id) && Succeeds(inv, r)
  {
    hide ActionKey, RetryOk;
    var r := inv.(items := inv.items[id := ClaimItem(inv.items[id], now)]);
    ReplaceKeeps(inv, id, r.items[id]);
    forall x ensures IsActive(r, x) <==> x == id {
      assert !IsActive(inv, x);
    }
    assert KeyOf(r.items[id]) == KeyOf(inv.items[id]);
  }

  lemma ReceiptKeepsInventory(inv: Inventory, id: string, now: int)
    requires ItemsOk(inv) && NoActive(inv) && id in inv.items && inv.items[id].phase == Runnable
    ensures var r := inv.(items := inv.items[id := CompleteFromReceipt(inv.items[id], now)]);
            InventoryOk(r) && NoActive(r) && Succeeds(inv, r)
  {
    hide KeyOf, RetryOk;
    var r := inv.(items := inv.items[id := CompleteFromReceipt(inv.items[id], now)]);
    ReplaceKeeps(inv, id, r.items[id]);
    forall x ensures !IsActive(r, x) {
      assert !IsActive(inv, x);
    }
  }

  lemma SettleKeepsInventory(inv: Inventory, id: string, o: Outcome, now: int)
    requires InventoryOk(inv) && OnlyActive(inv, id)
    ensures id in inv.items
    ensures var r := Settle(inv, id, o, now);
            InventoryOk(r) && NoActive(r) && Succeeds(inv, r) && !Active(r.items[id].phase) && r.items[id].phase != Runnable
  {
    hide KeyOf, ApplyOutcome, RetryOk;
    assert IsActive(inv, id);
    var it := inv.items[id];
    ApplyOutcomeKeeps(it, o, now);
    ReplaceKeeps(inv, id, ApplyOutcome(it, o, now));
    var r := Settle(inv, id, o, now);
    forall x ensures !IsActive(r, x) {
      assert IsActive(inv, x) <==> x == id;
    }
    assert KeyOf(it) !in inv.receipts;
  }

  lemma SettleKeepsQueue(inv: Inventory, q: seq<string>, id: string, o: Outcome, now: int)
    requires QueueOk(q, inv) && id in inv.items && inv.items[id].phase != Runnable
    ensures QueueOk(q, Settle(inv, id, o, now))
  {
    hide KeyOf, ApplyOutcome, ApprovalSatisfied;
    forall i | 0 <= i < |q| ensures q[i] != id { }
  }

  lemma ClaimKeeps(w: World)
    requires Sound(w) && w.pc.Ready? && w.pc.queue != []
    ensures w.pc.queue[0] in w.vol.items && Sound(ClaimHead(w))
  {
    hide KeyOf, ApprovalSatisfied, QueueOk, ClaimItem, CompleteFromReceipt, InventoryOk, Succeeds, NoActive, OnlyActive;
    hide ItemsOk;
    HeadIsCandidate(w.pc.queue, w.vol);
    var id, now := w.pc.queue[0], w.pc.now;
    var n := ClaimHead(w);
    InventoryParts(w.vol);
    if n.pc.Claimed? {
      ClaimKeepsInventory(w.vol, id, now);
    } else {
      ReceiptKeepsInventory(w.vol, id, now);
    }
    SucceedsIsTransitive(w.disk, w.vol, n.vol);
    TailIsQueue(w.pc.queue, w.vol, n.vol.items[id]);
  }

  lemma InventoryParts(inv: Inventory)
    requires InventoryOk(inv)
    ensures ItemsOk(inv)
  {
  }

  lemma ReturnKeeps(w: World, o: Outcome)
    requires Sound(w) && w.pc.InFlight?
    ensures w.pc.id in w.vol.items && Sound(Next(w, Return(o)))
  {
    hide KeyOf, Settle, QueueOk, InventoryOk, Succeeds, NoActive, OnlyActive, Candidate, Prepare, RunnableItems, AdmitWork,
      RecordApproval, ClaimHead, FinishCycle;
    var id, now := w.pc.id, w.pc.now;
    SettleKeepsInventory(w.vol, id, o, now);
    OnlyActiveIsActive(w.vol, id);
    SettleKeepsQueue(w.vol, w.pc.queue, id, o, now);
  }

  lemma OnlyActiveIsActive(inv: Inventory, id: string)
    requires OnlyActive(inv, id)
    ensures id in inv.items && Active(inv.items[id].phase)
  {
    assert IsActive(inv, id);
  }

  // ----- Every step keeps soundness -----

  lemma InputStepKeeps(w: World, l: Label)
    requires Sound(w) && (l.Admit? || l.Approve? || l.BeginCycle?)
    ensures Sound(Next(w, l))
  {
    hide ActionKey, Settle, AdmitWork, RecordApproval, Prepare, RunnableItems, ClaimHead, QueueOk, FinishCycle;
    match l
    case Admit(work, at) =>
      if w.pc.Loaded? && AdmitWork(w.vol, work, at).Ok? {
        AdmitKeeps(w.vol, work, at);
        SucceedsIsTransitive(w.disk, w.vol, Next(w, l).vol);
      }
    case Approve(entry) =>
      if w.pc.Loaded? && RecordApproval(w.vol, entry).Ok? {
        RecordKeeps(w.vol, entry);
        SucceedsIsTransitive(w.disk, w.vol, Next(w, l).vol);
      }
    case BeginCycle(facts, now, capacity) =>
      if w.pc.Loaded? {
        PrepareKeeps(w.vol, facts, now);
        SelectionIsQueue(Prepare(w.vol, facts, now), capacity);
        SucceedsIsTransitive(w.disk, w.vol, Next(w, l).vol);
      }
  }

  lemma CycleStepKeeps(w: World, l: Label)
    requires Sound(w) && (l.Claim? || l.Return? || l.Finish?)
    ensures Sound(Next(w, l))
  {
    hide Settle, ClaimHead, QueueOk, InventoryOk, Succeeds, FinishCycle, OnlyActive, NoActive;
    match l
    case Claim =>
      if w.pc.Ready? && w.pc.queue != [] { ClaimKeeps(w); }
    case Return(outcome) =>
      if w.pc.InFlight? { ReturnKeeps(w, outcome); }
    case Finish =>
      FinishKeeps(w);
  }

  lemma FinishKeeps(w: World)
    requires Sound(w)
    ensures Sound(Next(w, Finish))
  {
    hide ItemOk, ItemSucceeds, MetricsOf, QueueOk;
    forall x ensures IsActive(Next(w, Finish).vol, x) <==> IsActive(w.vol, x) { }
  }

  lemma QuietStepKeeps(w: World, l: Label)
    requires Sound(w)
    requires l.Start? || l.CheckpointClaim? || l.Invoke? || l.CheckpointOutcome? || l.Persist? || l.Crash?
    ensures Sound(Next(w, l))
  {
    SucceedsIsReflexive(w.disk);
    SucceedsIsReflexive(w.vol);
    hide InventoryOk, QueueOk, Succeeds, OnlyActive, NoActive, Settle, KeyOf;
  }

  lemma SucceedsIsReflexive(a: Inventory)
    ensures Succeeds(a, a)
  {
  }

  lemma StepKeeps(w: World, l: Label)
    requires Sound(w)
    ensures Sound(Next(w, l))
  {
    hide Sound, Next;
    match l
    case Admit(_, _) => InputStepKeeps(w, l);
    case Approve(_) => InputStepKeeps(w, l);
    case BeginCycle(_, _, _) => InputStepKeeps(w, l);
    case Claim => CycleStepKeeps(w, l);
    case Return(_) => CycleStepKeeps(w, l);
    case Finish => CycleStepKeeps(w, l);
    case _ => QuietStepKeeps(w, l);
  }

  lemma {:induction false} RunKeeps(w: World, ls: seq<Label>)
    requires Sound(w)
    ensures Sound(Exec(w, ls))
    decreases |ls|
  {
    if ls != [] {
      RunKeeps(w, ls[..|ls| - 1]);
      StepKeeps(Exec(w, ls[..|ls| - 1]), ls[|ls| - 1]);
    }
  }

  lemma InitIsSound(now: int)
    ensures Sound(Init(now))
  {
  }
}
