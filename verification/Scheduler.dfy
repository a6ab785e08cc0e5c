/** The scheduler process as the program it is: a dictionary in memory that loops
    rewrite in place, and a state file that checkpoints replace. Every method is
    proved to take exactly the steps of the state machine, so the theorems about
    runs are theorems about this program, killed at any point. */
module SchedulerProcess {
  import opened Wrappers
  import opened WorkItems
  import opened Runs
  import opened Cycles

  datatype Snapshot = Snapshot(
    cycle: nat, updatedAt: int, admitted: nat, approvals: nat, progressPercent: nat, metrics: Metrics)

  function AdmitLabels(work: seq<WorkInput>, at: int): (ls: seq<Label>)
    ensures |ls| == |work|
  {
    seq(|work|, i requires 0 <= i < |work| => Admit(work[i], at))
  }

  function ApproveLabels(entries: seq<ApprovalInput>): (ls: seq<Label>)
    ensures |ls| == |entries|
  {
    seq(|entries|, i requires 0 <= i < |entries| => Approve(entries[i]))
  }

  lemma AdmitLabelsSplit(work: seq<WorkInput>, i: nat, at: int)
    requires i < |work|
    ensures AdmitLabels(work[..i + 1], at) == AdmitLabels(work[..i], at) + [Admit(work[i], at)]
    ensures AdmitLabels(work, at) == AdmitLabels(work[..i + 1], at) + AdmitLabels(work[i + 1..], at)
  {
  }

  lemma ApproveLabelsSplit(entries: seq<ApprovalInput>, i: nat)
    requires i < |entries|
    ensures ApproveLabels(entries[..i + 1]) == ApproveLabels(entries[..i]) + [Approve(entries[i])]
    ensures ApproveLabels(entries) == ApproveLabels(entries[..i + 1]) + ApproveLabels(entries[i + 1..])
  {
  }

  /** A process that is down ignores the rest of its input. */
  lemma {:induction false} DownIgnoresInput(w: World, ls: seq<Label>)
    requires w.pc.Down? && forall l | l in ls :: l.Admit? || l.Approve?
    ensures Exec(w, ls) == w
    decreases |ls|
  {
    if ls != [] {
      DownIgnoresInput(w, ls[..|ls| - 1]);
      assert ls[|ls| - 1] in ls;
    }
  }

  lemma DownIgnoresWork(w: World, work: seq<WorkInput>, at: int)
    requires w.pc.Down?
    ensures Exec(w, AdmitLabels(work, at)) == w
  {
    DownIgnoresInput(w, AdmitLabels(work, at));
  }

  lemma DownIgnoresApprovals(w: World, entries: seq<ApprovalInput>)
    requires w.pc.Down?
    ensures Exec(w, ApproveLabels(entries)) == w
  {
    DownIgnoresInput(w, ApproveLabels(entries));
  }

  lemma RejectedStep(w: World, entry: ApprovalInput)
    ensures w.pc.Loaded? && RecordApproval(w.vol, entry).Err? ==> Next(w, Approve(entry)) == Die(w)
  {
  }

  lemma CheckpointSavesMemory(w: World, l: Label)
    requires Sound(w)
    requires || (l == CheckpointClaim && w.pc.Claimed?)
             || (l == CheckpointOutcome && w.pc.Settled?)
             || (l == Persist && w.pc.Finished?)
    ensures Next(w, l).vol == w.vol && Next(w, l).disk == w.vol && (l == Persist ==> Next(w, l).pc.Down?)
  {
    hide InventoryOk, Succeeds;
    if w.pc.Settled? { SettledIsItem(w); }
  }

  class Scheduler {
    var cycle: nat
    var updatedAt: int
    var items: map<string, Item>
    var receipts: map<string, Receipt>
    var metrics: Metrics
    var disk: Inventory
    ghost var world: World

    function Memory(): Inventory
      reads this
    {
      Inventory(cycle, updatedAt, items, receipts, metrics)
    }

    ghost predicate Valid()
      reads this
    {
      && world.disk == disk && world.vol == Memory()
      && Sound(world)
    }

    lemma ValidIdsMatch()
      requires Valid()
      ensures IdsMatch(Memory()) && IdsMatch(disk)
    {
    }

    constructor (now: int)
      ensures Valid() && world == Init(now)
    {
      cycle, updatedAt, items, receipts, metrics := 0, now, map[], map[], NO_METRICS;
      disk := EmptyInventory(now);
      world := Init(now);
      new;
      InitIsSound(now);
    }

    /** Replace memory by the content of the state file. */
    method ReadDisk()
      modifies this
      ensures Memory() == disk == old(disk) && world == old(world)
    {
      cycle, updatedAt, items, receipts, metrics :=
        disk.cycle, disk.updatedAt, disk.items, disk.receipts, disk.metrics;
    }

    method Load()
      requires Valid() && world.pc.Down?
      modifies this
      ensures Valid() && world == Next(old(world), Start) && world.pc.Loaded? && disk == old(disk) && items == disk.items
    {
      StepKeeps(world, Start);
      ReadDisk();
      world := Next(world, Start);
    }

    /** An exception: the process ends and its memory with it. */
    method Abort(ghost l: Label)
      requires Sound(world) && world.disk == disk && Next(world, l) == Die(world)
      modifies this
      ensures Valid() && world == Next(old(world), l) && world.pc.Down? && disk == old(disk)
    {
      StepKeeps(world, l);
      ReadDisk();
      world := Next(world, l);
    }

    method IngestOne(w: WorkInput, at: int) returns (r: Result<bool>)
      requires Valid() && world.pc.Loaded?
      modifies this
      ensures Valid() && world == Next(old(world), Admit(w, at)) && disk == old(disk)
      ensures r.Ok? <==> w.action != "" && w.id != ""
      ensures r.Ok? ==> r.value == (w.id !in old(items)) && world.pc.Loaded?
      ensures r.Ok? ==> items == if r.value then old(items)[w.id := MakeItem(w, at)] else old(items)
      ensures r.Err? ==> world.pc.Down?
    {
      StepKeeps(world, Admit(w, at));
      if w.action == "" {
        Abort(Admit(w, at));
        return Err(WorkActionRequired);
      }
      if w.id == "" {
        Abort(Admit(w, at));
        return Err(WorkIdRequired);
      }
      var unknown := w.id !in items;
      if unknown {
        items := items[w.id := MakeItem(w, at)];
      }
      world := Next(world, Admit(w, at));
      r := Ok(unknown);
    }

    method IngestWork(work: seq<WorkInput>, at: int) returns (r: Result<nat>)
      requires Valid() && world.pc.Loaded?
      modifies this
      ensures Valid() && world == Exec(old(world), AdmitLabels(work, at)) && disk == old(disk)
      ensures r.Ok? ==> world.pc.Loaded? && |items| == |old(items)| + r.value
      ensures r.Err? ==> world.pc.Down?
    {
      hide Next, Sound, MakeItem;
      var i, admitted := 0, 0;
      assert AdmitLabels(work[..0], at) == [];
      hide Exec, AdmitLabels;
      while i < |work|
        invariant 0 <= i <= |work|
        invariant Valid() && world.pc.Loaded? && disk == old(disk)
        invariant world == Exec(old(world), AdmitLabels(work[..i], at))
        invariant |items| == |old(items)| + admitted
      {
        AdmitLabelsSplit(work, i, at);
        ExecSnoc(old(world), AdmitLabels(work[..i], at), Admit(work[i], at));
        ghost var before := items;
        var one := IngestOne(work[i], at);
        if one.Err? {
          ghost var rest := AdmitLabels(work[i + 1..], at);
          ExecConcat(old(world), AdmitLabels(work[..i + 1], at), rest);
          DownIgnoresWork(world, work[i + 1..], at);
          return Err(one.fault);
        }
        admitted := admitted + if one.value then 1 else 0;
        AdmittedSize(before, items, work[i], at);
        i := i + 1;
      }
      assert work[..i] == work;
      r := Ok(admitted);
    }

    method RecordTeamsApproval(entry: ApprovalInput) returns (r: Result<()>)
      requires Valid() && world.pc.Loaded?
      modifies this
      ensures Valid() && world == Next(old(world), Approve(entry)) && disk == old(disk)
      ensures r.Ok? <==> RecordApproval(old(Memory()), entry).Ok?
      ensures r.Ok? ==> world.pc.Loaded? && items.Keys == old(items.Keys)
      ensures r.Err? ==> r.fault == RecordApproval(old(Memory()), entry).fault && world.pc.Down?
    {
      hide Sound, Next, ApprovalOf;
      StepKeeps(world, Approve(entry));
      RejectedStep(world, entry);
      if entry.channel != "teams" {
        Abort(Approve(entry));
        return Err(NotFromTeams);
      }
      if !entry.verified {
        Abort(Approve(entry));
        return Err(UnverifiedApproval);
      }
      if entry.itemId !in items {
        Abort(Approve(entry));
        return Err(UnknownItem);
      }
      var it := items[entry.itemId];
      if it.approvalRequestId == "" || entry.requestId != it.approvalRequestId {
        Abort(Approve(entry));
        return Err(RequestMismatch);
      }
      var approval := ApprovalOf(entry);
      if approval.decision !in {"approve", "deny"} {
        Abort(Approve(entry));
        return Err(InvalidDecision);
      }
      ApproveStep(world, entry);
      items := items[entry.itemId := it.(approval := Some(approval))];
      world := Next(world, Approve(entry));
      r := Ok(());
    }

    method IngestApprovals(entries: seq<ApprovalInput>) returns (r: Result<nat>)
      requires Valid() && world.pc.Loaded?
      modifies this
      ensures Valid() && world == Exec(old(world), ApproveLabels(entries)) && disk == old(disk)
      ensures r.Ok? ==> world.pc.Loaded? && r.value == |entries| && items.Keys == old(items.Keys)
      ensures r.Err? ==> world.pc.Down?
    {
      hide Next, Sound, RecordApproval;
      var i := 0;
      assert ApproveLabels(entries[..0]) == [];
      hide Exec, ApproveLabels;
      while i < |entries|
        invariant 0 <= i <= |entries|
        invariant Valid() && world.pc.Loaded? && disk == old(disk) && items.Keys == old(items.Keys)
        invariant world == Exec(old(world), ApproveLabels(entries[..i]))
      {
        ApproveLabelsSplit(entries, i);
        ExecSnoc(old(world), ApproveLabels(entries[..i]), Approve(entries[i]));
        var one := RecordTeamsApproval(entries[i]);
        if one.Err? {
          ghost var rest := ApproveLabels(entries[i + 1..]);
          ExecConcat(old(world), ApproveLabels(entries[..i + 1]), rest);
          DownIgnoresApprovals(world, entries[i + 1..]);
          return Err(one.fault);
        }
        i := i + 1;
      }
      assert entries[..i] == entries;
      r := Ok(i);
    }

    method RecoverOne(it: Item, now: int) returns (r: Item)
      ensures r == RecoverItem(it, receipts, now)
    {
      hide KeyOf, InterruptedIdempotent, InterruptedUnknown, Reconciliation;
      r := it;
      if Active(it.phase) {
        if KeyOf(it) in receipts {
          r := r.(phase := Complete, reason := "");
        } else if it.idempotent {
          r := r.(phase := Runnable, reason := InterruptedIdempotent());
        } else {
          r := r.(phase := Waiting, reason := InterruptedUnknown(), dependency := Reconciliation());
        }
        r := r.(claimedAt := None, updatedAt := now);
      }
    }

    /** The recovery loop at the start of a cycle. */
    method RecoverInterrupted(now: int)
      modifies this`items
      ensures items == map id | id in old(items) :: RecoverItem(old(items)[id], receipts, now)
    {
      hide RecoverItem;
      ghost var before := items;
      var todo := items.Keys;
      while todo != {}
        invariant items.Keys == before.Keys && todo <= before.Keys
        invariant forall id | id in before ::
          items[id] == if id in todo then before[id] else RecoverItem(before[id], receipts, now)
        decreases |todo|
      {
        var id :| id in todo;
        var recovered := RecoverOne(items[id], now);
        items := items[id := recovered];
        todo := todo - {id};
      }
    }

    method RecheckOne(it: Item, facts: map<string, bool>, now: int) returns (r: Item)
      ensures r == RecheckItem(it, facts, now)
    {
      hide RetryableReason, DependencySatisfied;
      r := it;
      if Terminal(it.phase) || Active(it.phase) {
        return;
      }
      if it.phase == Waiting && DependencySatisfied(it, facts) {
        r := it.(phase := Runnable, reason := "", dependency := "", updatedAt := now, lastProgressAt := now);
      } else if it.phase == RetryWait {
        if it.nextAttemptAt.Some? && it.nextAttemptAt.value <= now {
          r := it.(phase := Runnable, reason := "", nextAttemptAt := None, updatedAt := now);
        }
      } else if it.phase == Blocked {
        if RetryableReason(it.reason) {
          r := it.(phase := Runnable, reason := "", updatedAt := now);
        }
      }
    }

    /** The re-evaluation loop over waiting, retrying and blocked items. */
    method RecheckItems(facts: map<string, bool>, now: int)
      modifies this`items
      ensures items == map id | id in old(items) :: RecheckItem(old(items)[id], facts, now)
    {
      hide RecheckItem;
      ghost var before := items;
      var todo := items.Keys;
      while todo != {}
        invariant items.Keys == before.Keys && todo <= before.Keys
        invariant forall id | id in before ::
          items[id] == if id in todo then before[id] else RecheckItem(before[id], facts, now)
        decreases |todo|
      {
        var id :| id in todo;
        var checked := RecheckOne(items[id], facts, now);
        items := items[id := checked];
        todo := todo - {id};
      }
    }

    /** Write the dictionary to the state file. */
    method Checkpoint(ghost l: Label)
      requires world.vol == Memory() && world.disk == disk && Sound(world)
      requires || (l == CheckpointClaim && world.pc.Claimed?)
               || (l == CheckpointOutcome && world.pc.Settled?)
               || (l == Persist && world.pc.Finished?)
      modifies this`disk, this`world
      ensures Valid() && world == Next(old(world), l) && disk == Memory() && (l == Persist ==> world.pc.Down?)
    {
      hide Sound, Next;
      StepKeeps(world, l);
      CheckpointSavesMemory(world, l);
      disk := Memory();
      world := Next(world, l);
    }

    /** One selected item: from its receipt, or claim, checkpoint, call, outcome, checkpoint. */
    method ProcessItem(id: string, now: int, handler: Handler)
      requires Valid() && world.pc.Ready? && world.pc.queue != [] && world.pc.queue[0] == id && world.pc.now == now
      modifies this
      ensures id in old(items)
      ensures Valid() && world == Exec(old(world), CallLabels(old(Memory()), id, now, handler))
      ensures world.pc == Ready(old(world).pc.queue[1..], now)
    {
      hide KeyOf, Settle, ClaimItem, CompleteFromReceipt, Sound, Next, Exec;
      ghost var w0 := world;
      ReadyHead(w0);
      CallIsRun(w0, handler);
      var it := items[id];
      var key := KeyOf(it);
      if key in receipts {
        StepKeeps(w0, Claim);
        ClaimStep(w0);
        ExecOne(w0, Claim);
        items := items[id := CompleteFromReceipt(it, now)];
        world := Next(w0, Claim);
        return;
      }
      var claimed := ClaimItem(it, now);
      items := items[id := claimed];
      StepKeeps(w0, Claim);
      ClaimStep(w0);
      world := Next(w0, Claim);
      Checkpoint(CheckpointClaim);
      ghost var w2 := world;
      CheckpointClaimStep(Next(w0, Claim));
      StepKeeps(w2, Invoke);
      var outcome := handler(claimed, key);
      ghost var w3 := Next(w2, Invoke);
      InvokeStep(w2);
      StepKeeps(w3, Return(outcome));
      ReturnStep(w3, outcome);
      var settled := Settle(Memory(), id, outcome, now);
      SettleKeepsKeys(Memory(), id, outcome, now);
      items, receipts := settled.items, settled.receipts;
      SettledMemory(w3.vol, id, outcome, now);
      world := Next(w3, Return(outcome));
      Checkpoint(CheckpointOutcome);
      ExecFive(w0, Claim, CheckpointClaim, Invoke, Return(outcome), CheckpointOutcome);
    }

    method ProcessQueue(queue: seq<string>, now: int, handler: Handler)
      requires Valid() && world.pc == Ready(queue, now)
      modifies this
      ensures Valid() && world == Exec(old(world), QueueOf(old(world), handler)) && world.pc == Ready([], now)
    {
      hide Sound, Next, Exec, QueueOf, CallLabels;
      ghost var after := Exec(world, QueueOf(world, handler));
      var i := 0;
      while i < |queue|
        invariant 0 <= i <= |queue|
        invariant Valid() && world.pc == Ready(queue[i..], now)
        invariant Exec(world, QueueOf(world, handler)) == after
      {
        QueueSplits(world, handler);
        ProcessItem(queue[i], now, handler);
        i := i + 1;
      }
      EmptyQueueEnds(world, handler);
    }

    method RefreshMetrics()
      modifies this`metrics
      ensures metrics == MetricsOf(old(Memory()))
    {
      metrics := MetricsOf(Memory());
    }

    method PrepareMemory(facts: map<string, bool>, now: int)
      modifies this`cycle, this`items
      ensures Memory() == Prepare(old(Memory()), facts, now)
    {
      ghost var inv := Memory();
      cycle := cycle + 1;
      RecoverInterrupted(now);
      RecheckItems(facts, now);
      PreparedByLoops(inv, Memory(), facts, now);
    }

    method CloseCycle(now: int)
      requires Valid() && world.pc == Ready([], now)
      modifies this
      ensures Valid() && world == Next(old(world), Finish) && world.pc.Finished?
    {
      hide Sound, Next, MetricsOf;
      StepKeeps(world, Finish);
      FinishStep(world);
      RefreshMetrics();
      updatedAt := now;
      world := Next(world, Finish);
    }

    /** One complete cycle: it takes exactly the steps of `CycleLabels` and leaves the
        inventory that `RunCycle` describes. */
    method ExecuteCycle(facts: map<string, bool>, handler: Handler, capacity: int, now: int)
      requires Valid() && world.pc.Loaded?
      modifies this
      ensures IdsMatch(old(Memory()))
      ensures Valid() && world == Exec(old(world), CycleLabels(old(Memory()), facts, now, capacity, handler))
      ensures Memory() == RunCycle(old(Memory()), facts, now, capacity, handler) && world.pc.Finished?
    {
      hide Prepare, RunnableItems, Sound, Next, Exec, MetricsOf, QueueOf, RunCycle, CallLabels;
      ghost var w0 := world;
      ValidIdsMatch();
      ghost var begin := BeginCycle(facts, now, capacity);
      StepKeeps(w0, begin);
      PrepareMemory(facts, now);
      var queue := RunnableItems(Memory(), capacity);
      world := Next(w0, begin);
      BeginStep(w0, facts, now, capacity);
      CycleEnds(w0, world, facts, now, capacity, handler);
      ProcessQueue(queue, now, handler);
      CloseCycle(now);
    }

    /** One activation of the scheduler: load, ingest, one cycle, final write. A rejected
        input ends it with the state file untouched. */
    method RunOnce(work: seq<WorkInput>, entries: seq<ApprovalInput>, facts: map<string, bool>, handler: Handler,
                   capacity: int, now: int)
      returns (r: Result<Snapshot>)
      requires Valid() && world.pc.Down?
      modifies this
      ensures Valid() && world.pc.Down?
      ensures r.Err? ==> Rejected(old(world), work, entries, now, world)
      ensures r.Ok? ==> Activation(old(world), work, entries, facts, handler, capacity, now, world, r.value)
    {
      hide Sound, Next, Exec, CycleLabels, RunCycle, AdmitLabels, ApproveLabels;
      ghost var w0 := world;
      ExecOne(w0, Start);
      Load();
      var admitted := IngestWork(work, now);
      ExecConcat(w0, [Start], AdmitLabels(work, now));
      ExecConcat(w0, [Start] + AdmitLabels(work, now), ApproveLabels(entries));
      if admitted.Err? {
        DownIgnoresApprovals(world, entries);
        return Err(admitted.fault);
      }
      assert |items| == |items.Keys|;
      var applied := IngestApprovals(entries);
      if applied.Err? {
        return Err(applied.fault);
      }
      ghost var loaded := world;
      assert |items| == |items.Keys|;
      ExecuteCycle(facts, handler, capacity, now);
      ExecSnoc(loaded, CycleLabels(loaded.vol, facts, now, capacity, handler), Persist);
      Checkpoint(Persist);
      r := Ok(Snapshot(cycle, updatedAt, admitted.value, applied.value, ProgressPercent(Memory()), metrics));
    }
  }

  function InputLabels(work: seq<WorkInput>, entries: seq<ApprovalInput>, at: int): seq<Label>
  {
    [Start] + AdmitLabels(work, at) + ApproveLabels(entries)
  }

  /** The input was refused: its steps were taken and the state file is as before. */
  ghost predicate Rejected(w: World, work: seq<WorkInput>, entries: seq<ApprovalInput>, at: int, n: World)
  {
    n == Exec(w, InputLabels(work, entries, at)) && n.disk == w.disk
  }

  /** The input was taken in, one complete cycle ran on it, its result is the state
      file, and the snapshot reports that file. */
  ghost predicate Activation(w: World, work: seq<WorkInput>, entries: seq<ApprovalInput>, facts: map<string, bool>,
                             handler: Handler, capacity: int, now: int, n: World, s: Snapshot)
  {
    var loaded := Exec(w, InputLabels(work, entries, now));
    && loaded.pc.Loaded? && IdsMatch(loaded.vol)
    && n.disk == RunCycle(loaded.vol, facts, now, capacity, handler)
    && n == Exec(loaded, CycleLabels(loaded.vol, facts, now, capacity, handler) + [Persist])
    && |loaded.vol.items| >= |w.disk.items|
    && s == Snapshot(n.disk.cycle, n.disk.updatedAt, |loaded.vol.items| - |w.disk.items|, |entries|,
                     ProgressPercent(n.disk), n.disk.metrics)
  }

  lemma EmptyQueueEnds(w: World, handler: Handler)
    requires Sound(w) && w.pc.Ready? && w.pc.queue == []
    ensures Exec(w, QueueOf(w, handler)) == w
  {
    hide Sound, Next;
    assert QueueOf(w, handler) == [];
    assert Exec(w, []) == w;
  }

  /** The labels of a cycle, seen from the point where its queue is known. */
  lemma CycleEnds(w0: World, m: World, facts: map<string, bool>, now: int, capacity: int, handler: Handler)
    requires Sound(w0) && w0.pc.Loaded? && IdsMatch(w0.vol)
    requires m == Next(w0, BeginCycle(facts, now, capacity)) && Sound(m) && m.pc.Ready?
    ensures var ls := CycleLabels(w0.vol, facts, now, capacity, handler);
            && Exec(w0, ls) == Next(Exec(m, QueueOf(m, handler)), Finish)
            && Exec(w0, ls).vol == RunCycle(w0.vol, facts, now, capacity, handler)
            && Exec(w0, ls).pc == Finished
  {
    BeginStep(w0, facts, now, capacity);
    CycleIsRun(w0, facts, now, capacity, handler);
    hide Sound, Next, Exec, Prepare, RunnableItems, RunCycle;
    var begin := BeginCycle(facts, now, capacity);
    var calls := QueueOf(m, handler);
    ExecOne(w0, begin);
    ExecConcat(w0, [begin], calls);
    ExecSnoc(w0, [begin] + calls, Finish);
    assert CycleLabels(w0.vol, facts, now, capacity, handler) == [begin] + calls + [Finish];
  }

  /** Settling touches items and receipts only. */
  lemma SettledMemory(inv: Inventory, id: string, o: Outcome, now: int)
    requires id in inv.items
    ensures var s := Settle(inv, id, o, now); s == inv.(items := s.items, receipts := s.receipts)
  {
    hide KeyOf, ApplyOutcome;
  }

  lemma SettledIsItem(w: World)
    requires Sound(w) && w.pc.Settled?
    ensures w.pc.id in w.vol.items
  {
    hide KeyOf, ApplyOutcome;
  }

  lemma ReadyHead(w: World)
    requires Sound(w) && w.pc.Ready?
    ensures forall i | 0 <= i < |w.pc.queue| :: w.pc.queue[i] in w.vol.items
  {
  }

  ghost function QueueOf(w: World, handler: Handler): seq<Label>
    requires Sound(w) && w.pc.Ready?
  {
    ReadyHead(w);
    QueueLabels(w.vol, w.pc.queue, w.pc.now, handler)
  }

  lemma QueueSplits(w: World, handler: Handler)
    requires Sound(w) && w.pc.Ready? && w.pc.queue != []
    ensures w.pc.queue[0] in w.vol.items
    ensures var n := Exec(w, CallLabels(w.vol, w.pc.queue[0], w.pc.now, handler));
            && Sound(n) && n.pc == Ready(w.pc.queue[1..], w.pc.now)
            && Exec(w, QueueOf(w, handler)) == Exec(n, QueueOf(n, handler))
  {
    hide ProcessOne, CallLabels, Exec;
    ReadyHead(w);
    var head := CallLabels(w.vol, w.pc.queue[0], w.pc.now, handler);
    RunKeeps(w, head);
    CallIsRun(w, handler);
    var n := Exec(w, head);
    ProcessOneKeepsIds(w.vol, w.pc.queue[0], w.pc.now, handler);
    ExecConcat(w, head, QueueOf(n, handler));
  }

  lemma PreparedByLoops(inv: Inventory, after: Inventory, facts: map<string, bool>, now: int)
    requires after.items.Keys == inv.items.Keys
    requires forall id | id in inv.items ::
               after.items[id] == RecheckItem(RecoverItem(inv.items[id], inv.receipts, now), facts, now)
    requires after == inv.(cycle := inv.cycle + 1, items := after.items)
    ensures after == Prepare(inv, facts, now)
  {
    hide RecheckItem, RecoverItem;
  }

  lemma AdmittedSize(before: map<string, Item>, after: map<string, Item>, w: WorkInput, at: int)
    requires after == if w.id in before then before else before[w.id := MakeItem(w, at)]
    ensures |after| == |before| + if w.id in before then 0 else 1
  {
  }
}
