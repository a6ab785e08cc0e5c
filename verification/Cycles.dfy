/** One uninterrupted scheduler cycle as a function of the inventory, and the steps
    of the process it stands for. */
module Cycles {
  import opened WorkItems
  import opened Runs

  /** Within one cycle an item is handed to the handler at most once, so a function of
      item and key covers handlers with state and side effects as well. */
  type Handler = (Item, string) -> Outcome

  /** One selected item: finished from its receipt, or claimed, called and settled. */
  function ProcessOne(inv: Inventory, id: string, now: int, handler: Handler): Inventory
    requires id in inv.items
  {
    var it := inv.items[id];
    if KeyOf(it) in inv.receipts then inv.(items := inv.items[id := CompleteFromReceipt(it, now)])
    else
      var claimed := ClaimItem(it, now);
      Settle(inv.(items := inv.items[id := claimed]), id, handler(claimed, KeyOf(it)), now)
  }

  lemma ProcessOneKeepsIds(inv: Inventory, id: string, now: int, handler: Handler)
    requires id in inv.items
    ensures ProcessOne(inv, id, now, handler).items.Keys == inv.items.Keys
  {
    hide KeyOf, ApplyOutcome;
  }

  function ProcessAll(inv: Inventory, q: seq<string>, now: int, handler: Handler): Inventory
    requires forall i | 0 <= i < |q| :: q[i] in inv.items
    decreases |q|
  {
    if q == [] then inv
    else
      ProcessOneKeepsIds(inv, q[0], now, handler);
      ProcessAll(ProcessOne(inv, q[0], now, handler), q[1..], now, handler)
  }

  lemma SelectedAreItems(inv: Inventory, capacity: int)
    requires IdsMatch(inv)
    ensures var q := RunnableItems(inv, capacity);
            forall i | 0 <= i < |q| :: q[i] in inv.items && Candidate(inv.items[q[i]])
  {
    var sorted := SortRanks(CandidateRanks(inv));
    var q := RunnableItems(inv, capacity);
    forall i | 0 <= i < |q| ensures q[i] in inv.items && Candidate(inv.items[q[i]]) {
      assert sorted[i] in CandidateRanks(inv);
    }
  }

  /** Every item is filed under its own id; admission sees to it. */
  predicate IdsMatch(inv: Inventory)
  {
    forall id | id in inv.items :: inv.items[id].id == id
  }

  lemma PrepareKeepsIds(inv: Inventory, facts: map<string, bool>, now: int)
    requires IdsMatch(inv)
    ensures IdsMatch(Prepare(inv, facts, now))
  {
    hide KeyOf, RetryableReason, InterruptedIdempotent, InterruptedUnknown, Reconciliation;
  }

  function RunCycle(inv: Inventory, facts: map<string, bool>, now: int, capacity: int, handler: Handler): Inventory
    requires IdsMatch(inv)
  {
    var prepared := Prepare(inv, facts, now);
    PrepareKeepsIds(inv, facts, now);
    SelectedAreItems(prepared, capacity);
    FinishCycle(ProcessAll(prepared, RunnableItems(prepared, capacity), now, handler), now)
  }

  // ----- The steps behind the function -----

  function CallLabels(inv: Inventory, id: string, now: int, handler: Handler): seq<Label>
    requires id in inv.items
  {
    var it := inv.items[id];
    if KeyOf(it) in inv.receipts then [Claim]
    else [Claim, CheckpointClaim, Invoke, Return(handler(ClaimItem(it, now), KeyOf(it))), CheckpointOutcome]
  }

  function QueueLabels(inv: Inventory, q: seq<string>, now: int, handler: Handler): seq<Label>
    requires forall i | 0 <= i < |q| :: q[i] in inv.items
    decreases |q|
  {
    if q == [] then []
    else
      ProcessOneKeepsIds(inv, q[0], now, handler);
      CallLabels(inv, q[0], now, handler) + QueueLabels(ProcessOne(inv, q[0], now, handler), q[1..], now, handler)
  }

  function CycleLabels(inv: Inventory, facts: map<string, bool>, now: int, capacity: int, handler: Handler): seq<Label>
    requires IdsMatch(inv)
  {
    var prepared := Prepare(inv, facts, now);
    PrepareKeepsIds(inv, facts, now);
    SelectedAreItems(prepared, capacity);
    [BeginCycle(facts, now, capacity)] + QueueLabels(prepared, RunnableItems(prepared, capacity), now, handler) + [Finish]
  }

  // ----- What each single step does where it applies -----

  lemma StartStep(w: World)
    requires w.pc.Down?
    ensures Next(w, Start) == w.(vol := w.disk, pc := Loaded)
  {
  }

  lemma AdmitStep(w: World, work: WorkInput, at: int)
    requires w.pc.Loaded? && AdmitWork(w.vol, work, at).Ok?
    ensures Next(w, Admit(work, at)) == w.(vol := AdmitWork(w.vol, work, at).value, trace := w.trace + [TakenIn(work, at)])
  {
  }

  lemma ApproveStep(w: World, entry: ApprovalInput)
    requires w.pc.Loaded? && RecordApproval(w.vol, entry).Ok?
    ensures Next(w, Approve(entry))
            == w.(vol := RecordApproval(w.vol, entry).value, trace := w.trace + [Recorded(entry.itemId, ApprovalOf(entry))])
  {
  }

  lemma BeginStep(w: World, facts: map<string, bool>, now: int, capacity: int)
    requires w.pc.Loaded?
    ensures var p := Prepare(w.vol, facts, now);
            Next(w, BeginCycle(facts, now, capacity))
            == w.(vol := p, pc := Ready(RunnableItems(p, capacity), now), trace := w.trace + [CycleBegan(facts, now, capacity, p)])
  {
    hide Prepare, RunnableItems;
  }

  lemma CrashStep(w: World)
    ensures Next(w, Crash) == World(w.disk, w.disk, Down, w.trace + [Crashed])
  {
  }

  lemma ClaimStep(w: World)
    requires w.pc.Ready? && w.pc.queue != [] && w.pc.queue[0] in w.vol.items
    ensures Next(w, Claim) == ClaimHead(w)
  {
  }

  lemma CheckpointClaimStep(w: World)
    requires w.pc.Claimed?
    ensures var n := Next(w, CheckpointClaim);
            n.disk == n.vol == w.vol && n.pc == ClaimOnDisk(w.pc.id, w.pc.queue, w.pc.now)
  {
  }

  lemma InvokeStep(w: World)
    requires w.pc.ClaimOnDisk? && w.pc.id in w.vol.items
    ensures var n := Next(w, Invoke);
            n.disk == w.disk && n.vol == w.vol && n.pc == InFlight(w.pc.id, w.pc.queue, w.pc.now)
  {
  }

  lemma ReturnStep(w: World, o: Outcome)
    requires w.pc.InFlight? && w.pc.id in w.vol.items
    ensures var n := Next(w, Return(o));
            n.disk == w.disk && n.vol == Settle(w.vol, w.pc.id, o, w.pc.now)
            && n.pc == Settled(w.pc.id, o, w.pc.queue, w.pc.now) && n.trace == w.trace
  {
  }

  lemma FinishStep(w: World)
    requires w.pc.Ready? && w.pc.queue == []
    ensures Next(w, Finish) == w.(vol := FinishCycle(w.vol, w.pc.now), pc := Finished)
  {
    hide MetricsOf;
  }

  // ----- Sequences of steps -----

  lemma ExecSnoc(w: World, ls: seq<Label>, l: Label)
    ensures Exec(w, ls + [l]) == Next(Exec(w, ls), l)
  {
    hide Next;
    assert (ls + [l])[..|ls|] == ls;
  }

  lemma ExecOne(w: World, l: Label)
    ensures Exec(w, [l]) == Next(w, l)
  {
    hide Next;
    ExecSnoc(w, [], l);
    assert [] + [l] == [l];
  }

  lemma ExecFive(w: World, a: Label, b: Label, c: Label, d: Label, e: Label)
    ensures Exec(w, [a, b, c, d, e]) == Next(Next(Next(Next(Next(w, a), b), c), d), e)
  {
    hide Next, Exec;
    ExecOne(w, a);
    ExecSnoc(w, [a], b);
    ExecSnoc(w, [a] + [b], c);
    ExecSnoc(w, [a] + [b] + [c], d);
    ExecSnoc(w, [a] + [b] + [c] + [d], e);
    assert [a] + [b] + [c] + [d] + [e] == [a, b, c, d, e];
  }

  lemma CallIsRun(w: World, handler: Handler)
    requires w.pc.Ready? && w.pc.queue != [] && w.pc.queue[0] in w.vol.items
    ensures var id, now := w.pc.queue[0], w.pc.now;
            var n := Exec(w, CallLabels(w.vol, id, now, handler));
            n.vol == ProcessOne(w.vol, id, now, handler) && n.pc == Ready(w.pc.queue[1..], now)
  {
    hide KeyOf, Settle, ClaimItem, CompleteFromReceipt, Exec;
    var id, rest, now := w.pc.queue[0], w.pc.queue[1..], w.pc.now;
    var it := w.vol.items[id];
    if KeyOf(it) in w.vol.receipts {
      ExecOne(w, Claim);
    } else {
      var claimed := ClaimItem(it, now);
      var inv := w.vol.(items := w.vol.items[id := claimed]);
      var o := handler(claimed, KeyOf(it));
      ExecFive(w, Claim, CheckpointClaim, Invoke, Return(o), CheckpointOutcome);
      var w3 := Next(Next(Next(w, Claim), CheckpointClaim), Invoke);
      assert w3.pc == InFlight(id, rest, now) && w3.vol == inv;
      SettleKeepsKeys(inv, id, o, now);
    }
  }

  lemma SettleKeepsKeys(inv: Inventory, id: string, o: Outcome, now: int)
    requires id in inv.items
    ensures Settle(inv, id, o, now).items.Keys == inv.items.Keys
  {
    hide KeyOf, ApplyOutcome;
  }

  lemma {:induction false} QueueIsRun(w: World, handler: Handler)
    requires w.pc.Ready? && forall i | 0 <= i < |w.pc.queue| :: w.pc.queue[i] in w.vol.items
    ensures var n := Exec(w, QueueLabels(w.vol, w.pc.queue, w.pc.now, handler));
            n.vol == ProcessAll(w.vol, w.pc.queue, w.pc.now, handler) && n.pc == Ready([], w.pc.now)
    decreases |w.pc.queue|
  {
    hide Next, ProcessOne, CallLabels;
    var q, now := w.pc.queue, w.pc.now;
    if q != [] {
      CallIsRun(w, handler);
      ProcessOneKeepsIds(w.vol, q[0], now, handler);
      var m := Exec(w, CallLabels(w.vol, q[0], now, handler));
      QueueIsRun(m, handler);
      ExecConcat(w, CallLabels(w.vol, q[0], now, handler), QueueLabels(m.vol, q[1..], now, handler));
    }
  }

  /** An uninterrupted cycle is a run of the process: what is proved of every run
      holds along it and at each point where it may be cut off. */
  lemma CycleIsRun(w: World, facts: map<string, bool>, now: int, capacity: int, handler: Handler)
    requires w.pc.Loaded? && IdsMatch(w.vol)
    ensures var n := Exec(w, CycleLabels(w.vol, facts, now, capacity, handler));
            n.vol == RunCycle(w.vol, facts, now, capacity, handler) && n.pc == Finished
  {
    hide Prepare, RunnableItems;
    var begin := BeginCycle(facts, now, capacity);
    var m := Next(w, begin);
    PrepareKeepsIds(w.vol, facts, now);
    SelectedAreItems(m.vol, capacity);
    var q := RunnableItems(m.vol, capacity);
    var calls := QueueLabels(m.vol, q, now, handler);
    ExecOne(w, begin);
    QueueIsRun(m, handler);
    ExecConcat(w, [begin], calls);
    ExecConcat(w, [begin] + calls, [Finish]);
    ExecOne(Exec(w, [begin] + calls), Finish);
  }
}
