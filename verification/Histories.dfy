/** Readings of a run's trace, and the invariants that tie each reading to the
    state file and to the inventory in memory. */
module Histories {
  import opened Wrappers
  import opened WorkItems
  import opened Runs

  lemma AppendParts(t: seq<Event>, e: Event)
    ensures (t + [e])[..|t|] == t && (t + [e])[|t|] == e
  {
  }

  function Front(t: seq<Event>): seq<Event>
    requires t != []
  {
    t[..|t| - 1]
  }

  function Last(t: seq<Event>): Event
    requires t != []
  {
    t[|t| - 1]
  }

  // ----- Interrupted work that must not be repeated blindly -----

  /** The event settles what became of an earlier call for the item: its outcome
      was saved without a receipt, or a cycle ran with the reconciliation fact. */
  predicate Resolves(e: Event, id: string)
  {
    match e
    case OutcomeSaved(it, o) => it.id == id && o.receipt == ""
    case CycleBegan(facts, _, _, _) => Holds(facts, Reconciliation())
    case _ => false
  }

  predicate CallsOnce(e: Event, id: string)
  {
    e.Invoked? && e.item.id == id && !e.item.idempotent
  }

  /** A non-idempotent call for the item happened and nothing since resolved it. */
  predicate Unresolved(t: seq<Event>, id: string)
  {
    t != [] && (CallsOnce(Last(t), id) || (!Resolves(Last(t), id) && Unresolved(Front(t), id)))
  }

  ghost predicate Held(inv: Inventory, id: string)
  {
    && id in inv.items
    && var it := inv.items[id];
       && !it.idempotent
       && (KeyOf(it) in inv.receipts || Active(it.phase) || (it.phase == Waiting && it.dependency == Reconciliation()))
  }

  predicate AboutToCall(pc: Pc)
  {
    pc.Claimed? || pc.ClaimOnDisk?
  }

  ghost predicate HeldOk(w: World)
  {
    && (forall id | Unresolved(w.trace, id) ::
          && Held(w.disk, id)
          && (Held(w.vol, id) || (w.pc.Settled? && w.pc.id == id && w.pc.outcome.receipt == "")))
    && (AboutToCall(w.pc) ==> !Unresolved(w.trace, w.pc.id))
  }

  lemma HeldItemSurvivesRecover(it: Item, receipts: map<string, Receipt>, now: int)
    requires !it.idempotent
    requires KeyOf(it) in receipts || Active(it.phase) || (it.phase == Waiting && it.dependency == Reconciliation())
    ensures var r := RecoverItem(it, receipts, now);
            && !r.idempotent && KeyOf(r) == KeyOf(it)
            && (KeyOf(it) in receipts || (r.phase == Waiting && r.dependency == Reconciliation()))
  {
    hide ActionKey, InterruptedUnknown, InterruptedIdempotent, Reconciliation;
  }

  lemma HeldItemSurvivesRecheck(r: Item, facts: map<string, bool>, now: int)
    requires !Holds(facts, Reconciliation())
    ensures var c := RecheckItem(r, facts, now);
            && KeyOf(c) == KeyOf(r) && c.idempotent == r.idempotent
            && (r.phase == Waiting && r.dependency == Reconciliation() ==>
                  c.phase == Waiting && c.dependency == Reconciliation())
  {
    assert Reconciliation() != "";
    hide ActionKey, RetryableReason, Reconciliation;
  }

  lemma HeldSurvivesPrepare(inv: Inventory, facts: map<string, bool>, now: int, id: string)
    requires Held(inv, id) && !Holds(facts, Reconciliation())
    ensures Held(Prepare(inv, facts, now), id)
  {
    hide KeyOf, RecoverItem, RecheckItem, Reconciliation;
    HeldItemSurvivesRecover(inv.items[id], inv.receipts, now);
    HeldItemSurvivesRecheck(RecoverItem(inv.items[id], inv.receipts, now), facts, now);
  }

  lemma HeldSurvivesAdmit(inv: Inventory, work: WorkInput, at: int, id: string)
    requires Held(inv, id) && AdmitWork(inv, work, at).Ok?
    ensures Held(AdmitWork(inv, work, at).value, id)
  {
    hide KeyOf, MakeItem, Reconciliation;
  }

  lemma HeldSurvivesRecord(inv: Inventory, entry: ApprovalInput, id: string)
    requires Held(inv, id) && RecordApproval(inv, entry).Ok?
    ensures Held(RecordApproval(inv, entry).value, id)
  {
    hide ActionKey, Reconciliation, ApprovalOf;
  }

  lemma HeldSurvivesClaim(w: World, id: string)
    requires Sound(w) && w.pc.Ready? && w.pc.queue != [] && Held(w.vol, id)
    ensures w.pc.queue[0] in w.vol.items && Held(ClaimHead(w).vol, id)
    ensures ClaimHead(w).pc.Claimed? ==> id != w.pc.queue[0]
  {
    hide ActionKey, Reconciliation, ApprovalSatisfied, ItemsOk, Succeeds;
    assert Candidate(w.vol.items[w.pc.queue[0]]);
  }

  lemma HeldSurvivesReturn(w: World, o: Outcome, id: string)
    requires Sound(w) && w.pc.InFlight? && Held(w.vol, id)
    ensures w.pc.id in w.vol.items
    ensures Held(Settle(w.vol, w.pc.id, o, w.pc.now), id) || (id == w.pc.id && o.receipt == "")
  {
    OnlyActiveIsActive(w.vol, w.pc.id);
    ApplyOutcomeKeepsIdentity(w.vol.items[w.pc.id], o, w.pc.now);
    hide ActionKey, Reconciliation, ApplyOutcome, ItemsOk, Succeeds;
  }

  lemma ApplyOutcomeKeepsIdentity(it: Item, o: Outcome, now: int)
    ensures var r := ApplyOutcome(it, o, now);
            && SameIdentity(it, r) && r.approval == it.approval && r.attempts == it.attempts
            && KeyOf(r) == KeyOf(it)
  {
    hide ClassifyReason, BackoffSeconds, ActionKey;
  }

  lemma HeldStep(w: World, l: Label)
    requires Sound(w) && HeldOk(w)
    ensures HeldOk(Next(w, l))
  {
    hide ItemsOk, Succeeds, KeyOf, Prepare, RunnableItems, Settle, AdmitWork, RecordApproval, Reconciliation, Holds, ClaimItem, CompleteFromReceipt;
    var n := Next(w, l);
    if |n.trace| > |w.trace| { AppendParts(w.trace, Last(n.trace)); }
    if AboutToCall(n.pc) && !AboutToCall(w.pc) {
      ClaimWasRunnable(w);
    }
    forall id | Unresolved(n.trace, id)
      ensures Held(n.disk, id)
      ensures Held(n.vol, id) || (n.pc.Settled? && n.pc.id == id && n.pc.outcome.receipt == "")
    {
      HeldStepFor(w, l, id);
    }
  }

  lemma ClaimWasRunnable(w: World)
    requires Sound(w) && HeldOk(w) && w.pc.Ready? && w.pc.queue != [] && w.pc.queue[0] in w.vol.items
    ensures ClaimHead(w).pc.Claimed? ==> !Unresolved(w.trace, w.pc.queue[0])
  {
    if Unresolved(w.trace, w.pc.queue[0]) {
      HeldSurvivesClaim(w, w.pc.queue[0]);
    }
  }

  lemma HeldStepFor(w: World, l: Label, id: string)
    requires Sound(w) && HeldOk(w) && Unresolved(Next(w, l).trace, id)
    ensures var n := Next(w, l);
            Held(n.disk, id) && (Held(n.vol, id) || (n.pc.Settled? && n.pc.id == id && n.pc.outcome.receipt == ""))
  {
    hide ItemsOk, Succeeds, KeyOf, Prepare, RunnableItems, Settle, AdmitWork, RecordApproval, Reconciliation, Holds, ClaimItem, CompleteFromReceipt;
    var n := Next(w, l);
    if |n.trace| > |w.trace| { AppendParts(w.trace, Last(n.trace)); }
    match l
    case Start =>
    case Admit(work, at) =>
      if w.pc.Loaded? && AdmitWork(w.vol, work, at).Ok? { HeldSurvivesAdmit(w.vol, work, at, id); }
    case Approve(entry) =>
      if w.pc.Loaded? && RecordApproval(w.vol, entry).Ok? { HeldSurvivesRecord(w.vol, entry, id); }
    case BeginCycle(facts, now, capacity) =>
      if w.pc.Loaded? { HeldSurvivesPrepare(w.vol, facts, now, id); }
    case Claim =>
      if w.pc.Ready? && w.pc.queue != [] { HeldSurvivesClaim(w, id); }
    case CheckpointClaim =>
    case Invoke =>
      if w.pc.ClaimOnDisk? {
        OnlyActiveIsActive(w.vol, w.pc.id);
        IdIsKey(w.vol, w.pc.id);
      }
    case Return(o) =>
      if w.pc.InFlight? { HeldSurvivesReturn(w, o, id); }
    case CheckpointOutcome =>
      if w.pc.Settled? {
        IdIsKey(w.disk, w.pc.id);
        SettleKeepsIds(w.disk, w.pc.id, w.pc.outcome, w.pc.now);
      }
    case Finish =>
    case Persist =>
    case Crash =>
  }

  lemma IdIsKey(inv: Inventory, id: string)
    requires ItemsOk(inv) && id in inv.items
    ensures inv.items[id].id == id
  {
  }

  lemma SettleKeepsIds(inv: Inventory, id: string, o: Outcome, now: int)
    requires id in inv.items
    ensures id in Settle(inv, id, o, now).items && Settle(inv, id, o, now).items[id].id == inv.items[id].id
  {
    hide KeyOf;
    ApplyOutcomeKeepsIdentity(inv.items[id], o, now);
  }

  // ----- Scheduled retries -----

  /** The due time of the retry that the last saved outcome of the item scheduled,
      until a cycle begins at or after it. */
  function Due(t: seq<Event>, id: string): Option<int>
  {
    if t == [] then None
    else
      var before := Due(Front(t), id);
      match Last(t)
      case OutcomeSaved(it, _) =>
        if it.id != id then before else if it.phase == RetryWait then it.nextAttemptAt else None
      case CycleBegan(_, now, _, _) =>
        if before.Some? && before.value <= now then None else before
      case _ => before
  }

  ghost predicate Parked(inv: Inventory, id: string, due: int)
  {
    id in inv.items && inv.items[id].phase == RetryWait && inv.items[id].nextAttemptAt == Some(due)
  }

  ghost predicate DueOk(w: World)
  {
    forall id | Due(w.trace, id).Some? ::
      Parked(w.disk, id, Due(w.trace, id).value) && Parked(w.vol, id, Due(w.trace, id).value)
  }

  lemma ParkedSurvivesPrepare(inv: Inventory, facts: map<string, bool>, now: int, id: string, due: int)
    requires Parked(inv, id, due) && now < due
    ensures Parked(Prepare(inv, facts, now), id, due)
  {
    hide KeyOf, RetryableReason;
  }

  lemma ParkedSurvivesReturn(w: World, o: Outcome, id: string, due: int)
    requires Sound(w) && w.pc.InFlight? && Parked(w.vol, id, due)
    ensures w.pc.id in w.vol.items && Parked(Settle(w.vol, w.pc.id, o, w.pc.now), id, due)
  {
    OnlyActiveIsActive(w.vol, w.pc.id);
    hide KeyOf, ApplyOutcome;
  }

  lemma ParkedSurvivesAdmit(inv: Inventory, work: WorkInput, at: int, id: string, due: int)
    requires Parked(inv, id, due) && AdmitWork(inv, work, at).Ok?
    ensures Parked(AdmitWork(inv, work, at).value, id, due)
  {
    hide KeyOf, MakeItem;
  }

  lemma ParkedSurvivesRecord(inv: Inventory, entry: ApprovalInput, id: string, due: int)
    requires Parked(inv, id, due) && RecordApproval(inv, entry).Ok?
    ensures Parked(RecordApproval(inv, entry).value, id, due)
  {
    hide ApprovalOf;
  }

  lemma RetryHasDueTime(inv: Inventory, id: string)
    requires ItemsOk(inv) && id in inv.items && inv.items[id].phase == RetryWait
    ensures inv.items[id].nextAttemptAt.Some?
  {
  }

  lemma DueStep(w: World, l: Label)
    requires Sound(w) && DueOk(w)
    ensures DueOk(Next(w, l))
  {
    forall id | Due(Next(w, l).trace, id).Some?
      ensures var n := Next(w, l);
              Parked(n.disk, id, Due(n.trace, id).value) && Parked(n.vol, id, Due(n.trace, id).value)
    {
      DueStepFor(w, l, id);
    }
  }

  lemma DueInputStep(w: World, l: Label, id: string)
    requires Sound(w) && DueOk(w) && Due(Next(w, l).trace, id).Some?
    requires l.Admit? || l.Approve? || l.BeginCycle? || l.Finish?
    ensures var n := Next(w, l); var due := Due(n.trace, id).value;
            Parked(n.disk, id, due) && Parked(n.vol, id, due)
  {
    hide ItemsOk, Succeeds, KeyOf, Prepare, RunnableItems, Settle, ClaimItem, CompleteFromReceipt, ApprovalOf, AdmitWork,
      RecordApproval, FinishCycle, AtMostOneActive, ActiveHasNoReceipt, QueueOk;
    var n := Next(w, l);
    var due := Due(n.trace, id).value;
    if |n.trace| > |w.trace| { AppendParts(w.trace, Last(n.trace)); }
    match l
    case Admit(work, at) =>
      if w.pc.Loaded? && AdmitWork(w.vol, work, at).Ok? { ParkedSurvivesAdmit(w.vol, work, at, id, due); }
    case Approve(entry) =>
      if w.pc.Loaded? && RecordApproval(w.vol, entry).Ok? { ParkedSurvivesRecord(w.vol, entry, id, due); }
    case BeginCycle(facts, now, capacity) =>
      if w.pc.Loaded? { ParkedSurvivesPrepare(w.vol, facts, now, id, due); }
    case Finish =>
      if w.pc.Ready? { FinishKeepsItems(w.vol, w.pc.now); }
  }

  lemma DueItemStep(w: World, l: Label, id: string)
    requires Sound(w) && DueOk(w) && Due(Next(w, l).trace, id).Some?
    requires l.Claim? || l.Return?
    ensures var n := Next(w, l); var due := Due(n.trace, id).value;
            Parked(n.disk, id, due) && Parked(n.vol, id, due)
  {
    hide ItemsOk, Succeeds, KeyOf, Prepare, RunnableItems, Settle, ClaimItem, CompleteFromReceipt, ApprovalOf, AdmitWork,
      RecordApproval, FinishCycle, AtMostOneActive, ActiveHasNoReceipt, QueueOk;
    var n := Next(w, l);
    var due := Due(n.trace, id).value;
    match l
    case Claim =>
      if w.pc.Ready? && w.pc.queue != [] { HeadIsCandidate(w.pc.queue, w.vol); }
    case Return(o) =>
      if w.pc.InFlight? { ParkedSurvivesReturn(w, o, id, due); }
  }

  lemma DueCheckpointStep(w: World, l: Label, id: string)
    requires Sound(w) && DueOk(w) && Due(Next(w, l).trace, id).Some?
    requires l.CheckpointOutcome?
    ensures var n := Next(w, l); var due := Due(n.trace, id).value;
            Parked(n.disk, id, due) && Parked(n.vol, id, due)
  {
    hide ItemsOk, Succeeds, KeyOf, Prepare, RunnableItems, Settle, ClaimItem, CompleteFromReceipt, ApprovalOf, AdmitWork,
      RecordApproval, FinishCycle, AtMostOneActive, ActiveHasNoReceipt, QueueOk;
    var n := Next(w, l);
    var due := Due(n.trace, id).value;
    if |n.trace| > |w.trace| { AppendParts(w.trace, Last(n.trace)); }
    if w.pc.Settled? {
      IdIsKey(w.disk, w.pc.id);
      SettleKeepsIds(w.disk, w.pc.id, w.pc.outcome, w.pc.now);
      if w.pc.id == id && w.vol.items[id].phase == RetryWait {
        RetryHasDueTime(w.vol, id);
      }
    }
  }

  lemma DueQuietStep(w: World, l: Label, id: string)
    requires Sound(w) && DueOk(w) && Due(Next(w, l).trace, id).Some?
    requires l.Start? || l.CheckpointClaim? || l.Invoke? || l.Persist? || l.Crash?
    ensures var n := Next(w, l); var due := Due(n.trace, id).value;
            Parked(n.disk, id, due) && Parked(n.vol, id, due)
  {
    hide ItemsOk, Succeeds, KeyOf, Prepare, RunnableItems, Settle, ClaimItem, CompleteFromReceipt, ApprovalOf, AdmitWork,
      RecordApproval, FinishCycle, AtMostOneActive, ActiveHasNoReceipt, QueueOk;
    var n := Next(w, l);
    var due := Due(n.trace, id).value;
    if |n.trace| > |w.trace| { AppendParts(w.trace, Last(n.trace)); }
  }

  lemma DueStepFor(w: World, l: Label, id: string)
    requires Sound(w) && DueOk(w) && Due(Next(w, l).trace, id).Some?
    ensures var n := Next(w, l); var due := Due(n.trace, id).value;
            Parked(n.disk, id, due) && Parked(n.vol, id, due)
  {
    hide Sound, DueOk, Next, Due, Parked;
    match l
    case Admit(_, _) => DueInputStep(w, l, id);
    case Approve(_) => DueInputStep(w, l, id);
    case BeginCycle(_, _, _) => DueInputStep(w, l, id);
    case Finish => DueInputStep(w, l, id);
    case Claim => DueItemStep(w, l, id);
    case Return(_) => DueItemStep(w, l, id);
    case CheckpointOutcome => DueCheckpointStep(w, l, id);
    case _ => DueQuietStep(w, l, id);
  }

  lemma FinishKeepsItems(inv: Inventory, now: int)
    ensures FinishCycle(inv, now).items == inv.items
  {
    hide MetricsOf;
  }

  // ----- Counting claims and calls -----

  function Claims(t: seq<Event>, id: string): nat
  {
    if t == [] then 0 else Claims(Front(t), id) + if Last(t) == ClaimSaved(id) then 1 else 0
  }

  function Calls(t: seq<Event>, id: string): nat
  {
    if t == [] then 0 else Calls(Front(t), id) + if Last(t).Invoked? && Last(t).item.id == id then 1 else 0
  }

  function Crashes(t: seq<Event>): nat
  {
    if t == [] then 0 else Crashes(Front(t)) + if Last(t) == Crashed then 1 else 0
  }

  function Attempts(inv: Inventory, id: string): nat
  {
    if id in inv.items then inv.items[id].attempts else 0
  }

  function StoredApproval(inv: Inventory, id: string): Option<Approval>
  {
    if id in inv.items then inv.items[id].approval else None
  }

  ghost predicate SameMarks(a: Inventory, b: Inventory, id: string)
  {
    Attempts(a, id) == Attempts(b, id) && StoredApproval(a, id) == StoredApproval(b, id)
  }

  lemma RecoverItemMarks(it: Item, receipts: map<string, Receipt>, now: int)
    ensures var r := RecoverItem(it, receipts, now); r.attempts == it.attempts && r.approval == it.approval
  {
    hide KeyOf, InterruptedIdempotent, InterruptedUnknown, Reconciliation;
  }

  lemma RecheckItemMarks(it: Item, facts: map<string, bool>, now: int)
    ensures var r := RecheckItem(it, facts, now); r.attempts == it.attempts && r.approval == it.approval
  {
    hide RetryableReason, DependencySatisfied;
  }

  lemma PrepareKeepsMarks(inv: Inventory, facts: map<string, bool>, now: int, id: string)
    ensures SameMarks(inv, Prepare(inv, facts, now), id)
  {
    hide RecoverItem, RecheckItem;
    if id in inv.items {
      RecoverItemMarks(inv.items[id], inv.receipts, now);
      RecheckItemMarks(RecoverItem(inv.items[id], inv.receipts, now), facts, now);
    }
  }

  lemma AdmitKeepsMarks(inv: Inventory, work: WorkInput, at: int, id: string)
    requires AdmitWork(inv, work, at).Ok?
    ensures SameMarks(inv, AdmitWork(inv, work, at).value, id)
  {
  }

  lemma RecordMarks(inv: Inventory, entry: ApprovalInput, id: string)
    requires RecordApproval(inv, entry).Ok?
    ensures var r := RecordApproval(inv, entry).value;
            && Attempts(r, id) == Attempts(inv, id)
            && StoredApproval(r, id) == if id == entry.itemId then Some(ApprovalOf(entry)) else StoredApproval(inv, id)
  {
    hide ApprovalOf;
  }

  lemma SettleKeepsMarks(inv: Inventory, id: string, o: Outcome, now: int, x: string)
    requires id in inv.items
    ensures SameMarks(inv, Settle(inv, id, o, now), x)
  {
    hide KeyOf, ApplyOutcome;
    ApplyOutcomeKeepsIdentity(inv.items[id], o, now);
  }

  lemma MarksStep(w: World, l: Label, id: string)
    requires Sound(w)
    ensures var n := Next(w, l);
      match l
      case Approve(entry) => true
      case Claim =>
        && StoredApproval(n.vol, id) == StoredApproval(w.vol, id)
        && Attempts(n.vol, id) == Attempts(w.vol, id)
                                  + (if n.pc.Claimed? && !w.pc.Claimed? && n.pc.id == id then 1 else 0)
      case Start => true
      case Crash => true
      case Admit(_, _) => n.pc.Down? || SameMarks(w.vol, n.vol, id)
      case _ => SameMarks(w.vol, n.vol, id)
  {
    hide ItemsOk, Succeeds, KeyOf, Candidate, Prepare, RunnableItems, Settle, AdmitWork, RecordApproval;
    match l
    case Admit(work, at) =>
      if w.pc.Loaded? && AdmitWork(w.vol, work, at).Ok? { AdmitKeepsMarks(w.vol, work, at, id); }
    case BeginCycle(facts, now, capacity) => PrepareKeepsMarks(w.vol, facts, now, id);
    case Return(o) =>
      if w.pc.InFlight? && w.pc.id in w.vol.items { SettleKeepsMarks(w.vol, w.pc.id, o, w.pc.now, id); }
    case _ =>
  }

  ghost predicate CountsOkFor(w: World, id: string)
  {
    && Attempts(w.disk, id) == Claims(w.trace, id)
    && Attempts(w.vol, id) == Claims(w.trace, id) + (if w.pc.Claimed? && w.pc.id == id then 1 else 0)
    && var uncalled := if w.pc.ClaimOnDisk? && w.pc.id == id then 1 else 0;
       Calls(w.trace, id) + uncalled <= Claims(w.trace, id) <= Calls(w.trace, id) + Crashes(w.trace) + uncalled
  }

  ghost predicate CountsOk(w: World)
  {
    forall id :: CountsOkFor(w, id)
  }

  lemma CountsStep(w: World, l: Label)
    requires Sound(w) && CountsOk(w)
    ensures CountsOk(Next(w, l))
  {
    forall id ensures CountsOkFor(Next(w, l), id) {
      assert CountsOkFor(w, id);
      CountsStepFor(w, l, id);
    }
  }

  lemma CountsOfAppend(t: seq<Event>, e: Event, id: string)
    ensures Claims(t + [e], id) == Claims(t, id) + if e == ClaimSaved(id) then 1 else 0
    ensures Calls(t + [e], id) == Calls(t, id) + if e.Invoked? && e.item.id == id then 1 else 0
    ensures Crashes(t + [e]) == Crashes(t) + if e == Crashed then 1 else 0
  {
    AppendParts(t, e);
  }

  lemma CountsStepFor(w: World, l: Label, id: string)
    requires Sound(w) && CountsOkFor(w, id)
    ensures CountsOkFor(Next(w, l), id)
  {
    hide ItemsOk, Succeeds, KeyOf, Candidate, Prepare, RunnableItems, Settle, AdmitWork, RecordApproval, Attempts,
      ClaimItem, CompleteFromReceipt, Claims, Calls, Crashes, AtMostOneActive, ActiveHasNoReceipt, QueueOk, FinishCycle;
    var n := Next(w, l);
    if |n.trace| > |w.trace| {
      AppendParts(w.trace, Last(n.trace));
      CountsOfAppend(w.trace, Last(n.trace), id);
    }
    MarksStep(w, l, id);
    match l
    case Approve(entry) =>
      if w.pc.Loaded? && RecordApproval(w.vol, entry).Ok? { RecordMarks(w.vol, entry, id); }
    case Invoke =>
      if w.pc.ClaimOnDisk? && w.pc.id in w.vol.items { IdIsKey(w.vol, w.pc.id); }
    case _ =>
  }

  // ----- Approvals that survived -----

  /** The approval records in the lineage of the state file and of the memory. */
  datatype Log = Log(saved: seq<Event>, live: seq<Event>)

  function Surviving(t: seq<Event>): Log
  {
    if t == [] then Log([], [])
    else
      var before := Surviving(Front(t));
      match Last(t)
      case Recorded(_, _) => Log(before.saved, before.live + [Last(t)])
      case ClaimSaved(_) => Log(before.live, before.live)
      case OutcomeSaved(_, _) => Log(before.live, before.live)
      case FinalSaved => Log(before.live, before.live)
      case Crashed => Log(before.saved, before.saved)
      case _ => before
  }

  /** The last decision recorded for the item. */
  function Latest(log: seq<Event>, id: string): Option<Approval>
  {
    if log == [] then None
    else if Last(log).Recorded? && Last(log).itemId == id then Some(Last(log).approval)
    else Latest(Front(log), id)
  }

  ghost predicate ApprovalsOkFor(w: World, id: string)
  {
    && StoredApproval(w.disk, id) == Latest(Surviving(w.trace).saved, id)
    && StoredApproval(w.vol, id) == Latest(Surviving(w.trace).live, id)
  }

  ghost predicate ApprovalsOk(w: World)
  {
    && (forall id :: ApprovalsOkFor(w, id))
    && (AboutToCall(w.pc) ==> w.pc.id in w.vol.items && ApprovalSatisfied(w.vol.items[w.pc.id]))
  }

  lemma ApprovalsStep(w: World, l: Label)
    requires Sound(w) && ApprovalsOk(w)
    ensures ApprovalsOk(Next(w, l))
  {
    CallStaysApproved(w, l);
    hide Sound, Next, ApprovalsOkFor, ApprovalSatisfied;
    forall id ensures ApprovalsOkFor(Next(w, l), id) {
      assert ApprovalsOkFor(w, id);
      ApprovalsStepFor(w, l, id);
    }
  }

  lemma CallStaysApproved(w: World, l: Label)
    requires Sound(w)
    requires AboutToCall(w.pc) ==> w.pc.id in w.vol.items && ApprovalSatisfied(w.vol.items[w.pc.id])
    ensures var n := Next(w, l);
            AboutToCall(n.pc) ==> n.pc.id in n.vol.items && ApprovalSatisfied(n.vol.items[n.pc.id])
  {
    if l.Claim? { ClaimIsApproved(w); }
    hide InventoryOk, Succeeds, QueueOk, Settle, AdmitWork, RecordApproval, Prepare, RunnableItems, ClaimHead, FinishCycle,
      ApprovalSatisfied, KeyOf;
  }

  lemma ClaimIsApproved(w: World)
    requires Sound(w)
    ensures var n := Next(w, Claim);
            n.pc.Claimed? && !w.pc.Claimed? ==> n.pc.id in n.vol.items && ApprovalSatisfied(n.vol.items[n.pc.id])
  {
    hide KeyOf;
    if w.pc.Ready? && w.pc.queue != [] { HeadIsCandidate(w.pc.queue, w.vol); }
  }

  lemma DecisionStepFor(w: World, entry: ApprovalInput, id: string)
    requires Sound(w) && ApprovalsOkFor(w, id)
    ensures ApprovalsOkFor(Next(w, Approve(entry)), id)
  {
    hide ItemsOk, Succeeds, KeyOf, RecordApproval, StoredApproval, ApprovalOf, AtMostOneActive, ActiveHasNoReceipt, QueueOk,
      Surviving;
    var n := Next(w, Approve(entry));
    if |n.trace| > |w.trace| { SurvivingOfAppend(w.trace, Last(n.trace)); }
    if w.pc.Loaded? && RecordApproval(w.vol, entry).Ok? {
      RecordMarks(w.vol, entry, id);
      AppendParts(Surviving(w.trace).live, Last(n.trace));
    }
  }

  lemma SurvivingOfAppend(t: seq<Event>, e: Event)
    ensures Surviving(t + [e])
            == var before := Surviving(t);
               match e
               case Recorded(_, _) => Log(before.saved, before.live + [e])
               case ClaimSaved(_) => Log(before.live, before.live)
               case OutcomeSaved(_, _) => Log(before.live, before.live)
               case FinalSaved => Log(before.live, before.live)
               case Crashed => Log(before.saved, before.saved)
               case _ => before
  {
    AppendParts(t, e);
  }

  lemma ApprovalsStepFor(w: World, l: Label, id: string)
    requires Sound(w) && ApprovalsOkFor(w, id)
    ensures ApprovalsOkFor(Next(w, l), id)
  {
    hide ItemsOk, Succeeds, KeyOf, Candidate, Prepare, RunnableItems, Settle, AdmitWork, RecordApproval, StoredApproval,
      ClaimItem, CompleteFromReceipt, ApprovalOf, AtMostOneActive, ActiveHasNoReceipt, QueueOk, FinishCycle, Latest, Surviving;
    if l.Approve? {
      DecisionStepFor(w, l.entry, id);
    } else {
      var n := Next(w, l);
      if |n.trace| > |w.trace| { SurvivingOfAppend(w.trace, Last(n.trace)); }
      MarksStep(w, l, id);
    }
  }
}
