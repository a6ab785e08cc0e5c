/** What holds of every run of the scheduler, with crashes anywhere. A run starts
    from a fresh state file and is any sequence of steps. */
module RunTheorems {
  import opened Wrappers
  import opened WorkItems
  import opened Runs
  import opened Histories
  import opened RunInvariants
  import opened Admissions

  // ----- Interrupted non-idempotent work is never repeated blindly -----

  lemma {:induction false} UnresolvedUntil(t: seq<Event>, j: nat, k: nat, id: string)
    requires j < k <= |t| && CallsOnce(t[j], id)
    requires forall m | j < m < k :: !Resolves(t[m], id)
    ensures Unresolved(t[..k], id)
    decreases k - j
  {
    assert t[..k] != [] && Front(t[..k]) == t[..k - 1] && Last(t[..k]) == t[k - 1];
    if k - 1 > j {
      UnresolvedUntil(t, j, k - 1, id);
    }
  }

  /** The event clears the way for another call: an outcome of the item was saved without
      a receipt, or a cycle began with reconciliation established. */
  predicate Clears(e: Event, id: string)
  {
    (e.OutcomeSaved? && e.item.id == id && e.outcome.receipt == "") || Establishes(e, "reconciliation_required")
  }

  /** Between two handler calls for the item of an entry that is not idempotent, either
      an outcome of the item was saved without a receipt or a cycle began with the
      reconciliation fact established, wherever the process crashed. */
  lemma AtMostOnce(now: int, ls: seq<Label>, j: nat, k: nat, work: WorkInput)
    requires var t := Exec(Init(now), ls).trace;
             && j < k < |t| && CalledFor(t, j, work) && !work.idempotent
             && t[k].Invoked? && t[k].item.id == work.id
    ensures var t := Exec(Init(now), ls).trace;
            exists m | j < m < k :: Clears(t[m], work.id)
  {
    CallCarries(now, ls, j, work);
    RunIsTracked(now, ls);
    hide Exec, Init, CallOk, Sound, HeldOk, DueOk, CountsOk, ApprovalsOk, CycleOk, SaveOk, ReceiptsOk, BooksOf;
    var t := Exec(Init(now), ls).trace;
    assert CallOk(t[..k], t[k]);
    ClearedBetween(t, j, k, work.id);
  }

  lemma ClearedBetween(t: seq<Event>, j: nat, k: nat, id: string)
    requires j < k < |t| && CallsOnce(t[j], id) && t[k].Invoked? && t[k].item.id == id && CallOk(t[..k], t[k])
    ensures exists m | j < m < k :: Clears(t[m], id)
  {
    hide Latest, Surviving, Due, KeyOf, ApprovalSatisfied;
    if forall m | j < m < k :: !Clears(t[m], id) {
      forall m | j < m < k ensures !Resolves(t[m], id) { assert !Clears(t[m], id); }
      UnresolvedUntil(t, j, k, id);
      assert false;
    }
  }

  // ----- The state file only moves forward -----

  lemma StepMovesForward(w: World, l: Label)
    requires Tracked(w)
    ensures var n := Next(w, l);
            && Succeeds(w.disk, n.disk)
            && |w.trace| <= |n.trace| <= |w.trace| + 1
            && n.trace[..|w.trace|] == w.trace
            && (|n.trace| > |w.trace| && Last(n.trace).Invoked? ==> Last(n.trace).key !in w.disk.receipts)
  {
    hide ItemsOk, KeyOf, Candidate, Prepare, RunnableItems, Settle, AdmitWork, RecordApproval, ClaimItem, CompleteFromReceipt,
      HeldOk, DueOk, CountsOk, ApprovalsOk, CycleOk, SaveOk, ReceiptsOk, TraceOk, Succeeds;
    var n := Next(w, l);
    SucceedsIsReflexive(w.disk);
    if |n.trace| > |w.trace| { AppendParts(w.trace, Last(n.trace)); }
    if l.Invoke? && w.pc.ClaimOnDisk? { CalledKeyHasNoReceipt(w); }
  }

  lemma CalledKeyHasNoReceipt(w: World)
    requires Sound(w) && w.pc.ClaimOnDisk?
    ensures w.pc.id in w.vol.items && KeyOf(w.vol.items[w.pc.id]) !in w.disk.receipts
  {
    assert IsActive(w.disk, w.pc.id);
  }

  lemma {:induction false} RunMovesForward(w: World, ls: seq<Label>, key: string)
    requires Tracked(w)
    ensures var n := Exec(w, ls);
            && Tracked(n)
            && Succeeds(w.disk, n.disk)
            && |w.trace| <= |n.trace| && n.trace[..|w.trace|] == w.trace
            && (key in w.disk.receipts ==>
                  forall k | |w.trace| <= k < |n.trace| && n.trace[k].Invoked? :: n.trace[k].key != key)
    decreases |ls|
  {
    hide Tracked, Next, Succeeds;
    if ls == [] {
      SucceedsIsReflexive(w.disk);
    } else {
      var front := ls[..|ls| - 1];
      var m, n := Exec(w, front), Exec(w, ls);
      RunMovesForward(w, front, key);
      TrackedStep(m, ls[|ls| - 1]);
      StepMovesForward(m, ls[|ls| - 1]);
      SucceedsIsTransitive(w.disk, m.disk, n.disk);
      assert n.trace[..|w.trace|] == n.trace[..|m.trace|][..|w.trace|];
      if key in w.disk.receipts { ReceiptPersists(w.disk, m.disk, key); }
      forall k | |w.trace| <= k < |n.trace| && n.trace[k].Invoked? && key in w.disk.receipts ensures n.trace[k].key != key {
        if k < |m.trace| {
          assert n.trace[..|m.trace|][k] == m.trace[k];
        }
      }
    }
  }

  lemma ReceiptPersists(a: Inventory, b: Inventory, key: string)
    requires Succeeds(a, b) && key in a.receipts
    ensures key in b.receipts && b.receipts[key] == a.receipts[key]
  {
  }

  /** The next selected item has this key. */
  ghost predicate SelectedUnder(w: World, key: string)
  {
    w.pc.Ready? && w.pc.queue != [] && w.pc.queue[0] in w.vol.items && KeyOf(w.vol.items[w.pc.queue[0]]) == key
  }

  /** The step from w to n completes the item without a call or a claim. */
  ghost predicate CompletesUncalled(w: World, n: World, id: string)
  {
    && id in w.vol.items && id in n.vol.items && n.vol.items[id].phase == Complete
    && n.vol.items[id].attempts == w.vol.items[id].attempts
    && n.trace == w.trace && n.pc.Ready? && n.vol.receipts == w.vol.receipts
  }

  lemma ReceiptCompletes(w: World, key: string)
    requires SelectedUnder(w, key) && key in w.vol.receipts
    ensures CompletesUncalled(w, Next(w, Claim), w.pc.queue[0])
  {
    hide KeyOf;
  }

  /** Once a key has a receipt on disk, no continuation of the run loses or changes
      the receipt or calls the handler with that key; an item that is selected again
      under it is complete with the next step. */
  lemma ReceiptFinality(now: int, before: seq<Label>, after: seq<Label>, key: string)
    requires key in Exec(Init(now), before).disk.receipts
    ensures var w, n := Exec(Init(now), before), Exec(Init(now), before + after);
            && key in n.disk.receipts && n.disk.receipts[key] == w.disk.receipts[key]
            && |w.trace| <= |n.trace| && n.trace[..|w.trace|] == w.trace
            && (forall k | |w.trace| <= k < |n.trace| && n.trace[k].Invoked? :: n.trace[k].key != key)
            && (SelectedUnder(n, key) ==> CompletesUncalled(n, Next(n, Claim), n.pc.queue[0]))
  {
    var w := Exec(Init(now), before);
    RunIsTracked(now, before);
    ExecConcat(Init(now), before, after);
    RunMovesForward(w, after, key);
    var n := Exec(w, after);
    assert Succeeds(n.disk, n.vol);
    hide Tracked, Next, Succeeds, SelectedUnder, CompletesUncalled;
    ReceiptPersists(w.disk, n.disk, key);
    ReceiptPersists(n.disk, n.vol, key);
    if SelectedUnder(n, key) {
      ReceiptCompletes(n, key);
    }
  }

  lemma {:induction false} SealedMeansSaved(t: seq<Event>, key: string, r: Receipt)
    requires Sealed(t, key, r)
    ensures exists k | 0 <= k < |t| ::
              && t[k].OutcomeSaved? && KeyOf(t[k].item) == key
              && t[k].item.id == r.itemId && t[k].outcome.receipt == r.receipt
  {
    if Last(t).OutcomeSaved? && KeyOf(Last(t).item) == key && Last(t).item.id == r.itemId
       && Last(t).outcome.receipt == r.receipt {
      assert t[|t| - 1] == Last(t);
    } else {
      SealedMeansSaved(Front(t), key, r);
      var k :| 0 <= k < |Front(t)| && Front(t)[k].OutcomeSaved? && KeyOf(Front(t)[k].item) == key
               && Front(t)[k].item.id == r.itemId && Front(t)[k].outcome.receipt == r.receipt;
      assert t[k] == Front(t)[k];
    }
  }

  /** No receipt is invented: each one on disk was returned by a call for its item
      under its key, and that outcome was saved. */
  lemma ReceiptsComeFromOutcomes(now: int, ls: seq<Label>, key: string)
    requires key in Exec(Init(now), ls).disk.receipts
    ensures var w := Exec(Init(now), ls);
            var r := w.disk.receipts[key];
            && r.receipt != ""
            && exists k | 0 <= k < |w.trace| ::
                 && w.trace[k].OutcomeSaved? && KeyOf(w.trace[k].item) == key
                 && w.trace[k].item.id == r.itemId && w.trace[k].outcome.receipt == r.receipt
  {
    RunIsTracked(now, ls);
    var w := Exec(Init(now), ls);
    SealedMeansSaved(w.trace, key, w.disk.receipts[key]);
  }

  // ----- Terminal phases and progress -----

  /** Complete and externally failed items stay so in the state file of every
      continuation and in every inventory loaded from it. */
  lemma TerminalIsFinal(now: int, before: seq<Label>, after: seq<Label>, id: string)
    requires var d := Exec(Init(now), before).disk; id in d.items && d.items[id].phase in {Complete, FailedExternal}
    ensures var w, n := Exec(Init(now), before), Exec(Init(now), before + after);
            && id in n.disk.items && n.disk.items[id].phase == w.disk.items[id].phase
            && id in n.vol.items && n.vol.items[id].phase == w.disk.items[id].phase
  {
    hide Next;
    var w := Exec(Init(now), before);
    RunIsTracked(now, before);
    ExecConcat(Init(now), before, after);
    RunMovesForward(w, after, "");
    SucceedsIsTransitive(w.disk, Exec(w, after).disk, Exec(w, after).vol);
  }

  lemma CompletePersists(a: Inventory, b: Inventory)
    requires Succeeds(a, b)
    ensures IdsIn(a, {Complete}) <= IdsIn(b, {Complete})
  {
    forall id | id in IdsIn(a, {Complete}) ensures id in IdsIn(b, {Complete}) {
      assert ItemSucceeds(a.items[id], b.items[id]);
    }
  }

  lemma FloorIsMonotone(a: nat, b: nat, n: nat)
    requires a <= b && n > 0
    ensures a * 100 / n <= b * 100 / n
  {
    var d := (b - a) * 100;
    assert b * 100 == a * 100 + d;
    var q := a * 100 / n;
    var p := b * 100 / n;
    assert q * n <= a * 100 && b * 100 < (p + 1) * n;
    assert p + 1 <= q ==> (p + 1) * n <= q * n;
  }

  /** As long as nothing is admitted, the reported percentage never falls. */
  lemma ProgressNeverFalls(now: int, before: seq<Label>, after: seq<Label>)
    requires Exec(Init(now), before).disk.items.Keys == Exec(Init(now), before + after).disk.items.Keys
    ensures ProgressPercent(Exec(Init(now), before).disk) <= ProgressPercent(Exec(Init(now), before + after).disk)
  {
    hide Tracked, Next, Succeeds;
    var w, n := Exec(Init(now), before), Exec(Init(now), before + after);
    RunIsTracked(now, before);
    ExecConcat(Init(now), before, after);
    RunMovesForward(w, after, "");
    CompletePersists(w.disk, n.disk);
    SubsetSize(IdsIn(w.disk, {Complete}), IdsIn(n.disk, {Complete}));
    assert |w.disk.items| == |w.disk.items.Keys| && |n.disk.items| == |n.disk.items.Keys|;
    if w.disk.items != map[] && n.disk.items != map[] {
      FloorIsMonotone(|IdsIn(w.disk, {Complete})|, |IdsIn(n.disk, {Complete})|, |w.disk.items|);
    }
  }

  lemma QuotientIsWhole(c: nat, n: nat)
    requires 0 <= c <= n && n > 0
    ensures c * 100 / n <= 100
    ensures c * 100 / n == 100 <==> c == n
  {
    var q := c * 100 / n;
    assert q * n <= c * 100 < (q + 1) * n;
    assert q >= 101 ==> 101 * n <= q * n;
    assert q < 100 ==> (q + 1) * n <= 100 * n;
    assert q == 100 ==> 100 * n <= c * 100;
  }

  /** The percentage reaches 100 exactly when there is work and all of it is complete. */
  lemma ProgressIsFullOnlyWhenDone(inv: Inventory)
    ensures ProgressPercent(inv) <= 100
    ensures ProgressPercent(inv) == 100 <==>
              inv.items != map[] && forall id | id in inv.items :: inv.items[id].phase == Complete
  {
    var done := IdsIn(inv, {Complete});
    SubsetSize(done, inv.items.Keys);
    assert |inv.items| == |inv.items.Keys|;
    if inv.items != map[] {
      assert inv.items.Keys != {};
      QuotientIsWhole(|done|, |inv.items|);
      assert (forall id | id in inv.items :: inv.items[id].phase == Complete) <==> done == inv.items.Keys by {
        assert forall id | id in inv.items :: id in done <==> inv.items[id].phase == Complete;
      }
    }
  }

  lemma DisjointSizes<T>(a: set<T>, b: set<T>)
    requires a !! b
    ensures |a + b| == |a| + |b|
  {
  }

  /** The six metrics account for every item once, except runnable items that lack
      approval, which none of them counts. */
  lemma MetricsAccountForItems(inv: Inventory)
    ensures var m := MetricsOf(inv);
            var unapproved := IdsIn(inv, {Runnable}) - ReadyIds(inv);
            m.completed + m.active + m.waiting + m.blocked + m.retrying + m.runnable + |unapproved| == |inv.items|
  {
    hide ApprovalSatisfied;
    var c, a, w := IdsIn(inv, {Complete}), IdsIn(inv, {Running, Verifying}), IdsIn(inv, {Waiting});
    var b, r, ready := IdsIn(inv, {Blocked, FailedExternal}), IdsIn(inv, {RetryWait}), IdsIn(inv, {Runnable});
    PhasesPartition(inv);
    hide IdsIn, ReadyIds;
    DisjointSizes(c, a);
    DisjointSizes(c + a, w);
    DisjointSizes(c + a + w, b);
    DisjointSizes(c + a + w + b, r);
    DisjointSizes(c + a + w + b + r, ready);
    assert |inv.items| == |inv.items.Keys|;
    var split := ReadyIds(inv);
    DisjointSizes(split, ready - split);
    assert split + (ready - split) == ready;
  }

  lemma PhasesPartition(inv: Inventory)
    ensures var c, a, w := IdsIn(inv, {Complete}), IdsIn(inv, {Running, Verifying}), IdsIn(inv, {Waiting});
            var b, r, ready := IdsIn(inv, {Blocked, FailedExternal}), IdsIn(inv, {RetryWait}), IdsIn(inv, {Runnable});
            && c !! a && c + a !! w && c + a + w !! b && c + a + w + b !! r && c + a + w + b + r !! ready
            && c + a + w + b + r + ready == inv.items.Keys
            && ReadyIds(inv) <= ready
  {
    hide ApprovalSatisfied;
    forall id | id in inv.items
      ensures inv.items[id].phase in {Complete, Running, Verifying, Waiting, Blocked, FailedExternal, RetryWait, Runnable}
    {
      var p := inv.items[id].phase;
      assert p.Complete? || p.Running? || p.Verifying? || p.Waiting? || p.Blocked? || p.FailedExternal? || p.RetryWait? || p.Runnable?;
    }
  }

  // ----- What a checkpoint can contain -----

  /** A persisted inventory has an active item exactly when its last checkpoint was a
      claim whose outcome was not saved, and then it is that item alone, without a
      receipt; no item is active between calls or when a cycle ends. */
  lemma CheckpointShape(now: int, ls: seq<Label>)
    ensures var w := Exec(Init(now), ls);
            && (forall id :: IsActive(w.disk, id) <==> OpenClaim(w.trace) == Some(id))
            && ActiveHasNoReceipt(w.disk)
            && (w.pc.Ready? || w.pc.Finished? ==> NoActive(w.vol))
  {
    hide KeyOf, Next, HeldOk, DueOk, CountsOk, ApprovalsOk, CycleOk, ReceiptsOk, TraceOk, ItemsOk, Succeeds;
    RunIsTracked(now, ls);
  }

  /** Recovery never finds an active item that already has a receipt: on inventories
      the engine wrote, each interrupted item is run again or parked. */
  lemma RecoveryNeverFindsReceipt(now: int, ls: seq<Label>, at: int, id: string)
    requires var w := Exec(Init(now), ls); w.pc.Loaded? && IsActive(w.vol, id)
    ensures var w := Exec(Init(now), ls);
            && KeyOf(w.vol.items[id]) !in w.vol.receipts
            && (Recover(w.vol, at).items[id].phase == if w.vol.items[id].idempotent then Runnable else Waiting)
  {
    hide ActionKey;
    RunIsTracked(now, ls);
    assert InventoryOk(Exec(Init(now), ls).vol);
  }

  // ----- Retries -----

  /** Every persisted retry is below its attempt limit and due 30 or 60 seconds after
      the outcome that scheduled it; the 120 second step is never reached, because
      admission fixes the limit at three attempts. */
  lemma RetriesAreBoundedAndDelayed(now: int, ls: seq<Label>, id: string)
    requires var d := Exec(Init(now), ls).disk; id in d.items && d.items[id].phase == RetryWait
    ensures var it := Exec(Init(now), ls).disk.items[id];
            && 1 <= it.attempts < 3 == it.maxAttempts
            && it.lastOutcome.Some?
            && it.nextAttemptAt == Some(it.lastOutcome.value.at + if it.attempts == 1 then 30 else 60)
  {
    hide Next;
    RunIsTracked(now, ls);
    RetryDelay(Exec(Init(now), ls).disk, id);
  }

  lemma RetryDelay(inv: Inventory, id: string)
    requires ItemsOk(inv) && id in inv.items && inv.items[id].phase == RetryWait
    ensures var it := inv.items[id];
            && 1 <= it.attempts < 3 == it.maxAttempts
            && it.lastOutcome.Some?
            && it.nextAttemptAt == Some(it.lastOutcome.value.at + if it.attempts == 1 then 30 else 60)
  {
    assert RetryOk(inv.items[id]);
    assert BackoffSeconds(1) == 30 && BackoffSeconds(2) == 60;
  }

  lemma {:induction false} DueUntil(t: seq<Event>, j: nat, k: nat)
    requires TraceOk(t) && j < k <= |t|
    requires t[j].OutcomeSaved? && t[j].item.phase == RetryWait && t[j].item.nextAttemptAt.Some?
    requires forall m | j < m < k :: !(t[m].CycleBegan? && t[j].item.nextAttemptAt.value <= t[m].now)
    ensures Due(t[..k], t[j].item.id) == t[j].item.nextAttemptAt
    decreases k - j
  {
    hide CallOk;
    assert t[..k] != [] && Front(t[..k]) == t[..k - 1] && Last(t[..k]) == t[k - 1];
    if k - 1 > j {
      DueUntil(t, j, k - 1);
    }
  }

  /** After a retry was saved, its item is not called until a cycle has begun at or
      after the due time, whatever crashes in between. */
  lemma NoEarlyRetry(now: int, ls: seq<Label>, j: nat, k: nat)
    requires var t := Exec(Init(now), ls).trace;
             && j < k < |t| && t[j].OutcomeSaved? && t[j].item.phase == RetryWait && t[j].item.nextAttemptAt.Some?
             && t[k].Invoked? && t[k].item.id == t[j].item.id
    ensures var t := Exec(Init(now), ls).trace;
            exists m | j < m < k :: t[m].CycleBegan? && t[j].item.nextAttemptAt.value <= t[m].now
  {
    RunIsTracked(now, ls);
    var t := Exec(Init(now), ls).trace;
    assert CallOk(t[..k], t[k]);
    if forall m | j < m < k :: !(t[m].CycleBegan? && t[j].item.nextAttemptAt.value <= t[m].now) {
      DueUntil(t, j, k);
      assert false;
    }
  }

  ghost predicate ClockNeverGoesBack(t: seq<Event>)
  {
    forall i, j | 0 <= i < j < |t| && t[i].CycleBegan? && t[j].CycleBegan? :: t[i].now <= t[j].now
  }

  lemma {:induction false} CycleTimeIsLatest(t: seq<Event>, m: nat)
    requires ClockNeverGoesBack(t) && m < |t| && t[m].CycleBegan?
    ensures CycleTime(t).Some? && t[m].now <= CycleTime(t).value
  {
    if !Last(t).CycleBegan? {
      CycleTimeIsLatest(Front(t), m);
    }
  }

  /** When the clock never goes back, the call itself is made no earlier than the due time. */
  lemma RetryCallIsNotEarly(now: int, ls: seq<Label>, j: nat, k: nat)
    requires var t := Exec(Init(now), ls).trace;
             && j < k < |t| && t[j].OutcomeSaved? && t[j].item.phase == RetryWait && t[j].item.nextAttemptAt.Some?
             && t[k].Invoked? && t[k].item.id == t[j].item.id
    requires ClockNeverGoesBack(Exec(Init(now), ls).trace)
    ensures var t := Exec(Init(now), ls).trace; t[j].item.nextAttemptAt.value <= t[k].now
  {
    var t := Exec(Init(now), ls).trace;
    NoEarlyRetry(now, ls, j, k);
    var m :| j < m < k && t[m].CycleBegan? && t[j].item.nextAttemptAt.value <= t[m].now;
    RunIsTracked(now, ls);
    hide Next, Sound, HeldOk, DueOk, CountsOk, ApprovalsOk, CycleOk, SaveOk, ReceiptsOk;
    assert CallOk(t[..k], t[k]);
    assert t[..k][m] == t[m];
    CycleTimeIsLatest(t[..k], m);
  }

  // ----- Counting -----

  /** The stored attempts count the persisted claims exactly. Calls never exceed them,
      and fall short only by claims that a crash cut off before the call. */
  lemma AttemptsCountClaims(now: int, ls: seq<Label>, id: string)
    ensures var w := Exec(Init(now), ls);
            && Attempts(w.disk, id) == Claims(w.trace, id)
            && Calls(w.trace, id) <= Attempts(w.disk, id)
            && (w.pc.Down? || w.pc.Ready? ==> Attempts(w.disk, id) <= Calls(w.trace, id) + Crashes(w.trace))
  {
    RunIsTracked(now, ls);
    assert CountsOkFor(Exec(Init(now), ls), id);
  }

  ghost predicate CyclesPrepared(t: seq<Event>)
  {
    forall k | 0 <= k < |t| && t[k].CycleBegan? :: ItemsOk(t[k].prepared)
  }

  lemma PreparedStep(w: World, l: Label)
    requires Tracked(w) && CyclesPrepared(w.trace)
    ensures CyclesPrepared(Next(w, l).trace)
  {
    if l.BeginCycle? && w.pc.Loaded? { PrepareKeeps(w.vol, l.facts, l.now); }
    hide Tracked, ItemsOk, KeyOf, Prepare, RunnableItems, Settle, AdmitWork, RecordApproval, ClaimItem, CompleteFromReceipt,
      CyclesPrepared, FinishCycle;
    var n := Next(w, l);
    if |n.trace| > |w.trace| {
      AppendParts(w.trace, Last(n.trace));
      PreparedGrows(w.trace, Last(n.trace));
    }
  }

  lemma PreparedGrows(t: seq<Event>, e: Event)
    requires CyclesPrepared(t) && (e.CycleBegan? ==> ItemsOk(e.prepared))
    ensures CyclesPrepared(t + [e])
  {
    hide ItemsOk;
    AppendParts(t, e);
    forall k | 0 <= k < |t| ensures (t + [e])[k] == t[k] { }
  }

  lemma {:induction false} BegunCycleIsPrepared(now: int, ls: seq<Label>)
    ensures CyclesPrepared(Exec(Init(now), ls).trace)
    decreases |ls|
  {
    hide Next, Tracked;
    if ls != [] {
      RunIsTracked(now, ls[..|ls| - 1]);
      BegunCycleIsPrepared(now, ls[..|ls| - 1]);
      PreparedStep(Exec(Init(now), ls[..|ls| - 1]), ls[|ls| - 1]);
    }
  }

  lemma {:induction false} SelectionCameFromCycle(t: seq<Event>)
    requires Selection(t) != []
    ensures exists k | 0 <= k < |t| :: t[k].CycleBegan? && Selection(t) == RunnableItems(t[k].prepared, t[k].capacity)
  {
    hide RunnableItems;
    if Last(t).CycleBegan? {
      assert t[|t| - 1] == Last(t);
    } else {
      SelectionCameFromCycle(Front(t));
      var k :| 0 <= k < |Front(t)| && Front(t)[k].CycleBegan?
               && Selection(Front(t)) == RunnableItems(Front(t)[k].prepared, Front(t)[k].capacity);
      assert t[k] == Front(t)[k];
    }
  }

  /** The capacity given to the cycle that began last. */
  function CycleCapacity(t: seq<Event>): int
  {
    if t == [] then 0
    else match Last(t)
         case CycleBegan(_, _, capacity, _) => capacity
         case _ => CycleCapacity(Front(t))
  }

  lemma {:induction false} SelectionIsWithinCapacity(t: seq<Event>)
    ensures |Selection(t)| <= Max(0, CycleCapacity(t))
  {
    hide RunnableItems;
    if t != [] {
      SelectionIsWithinCapacity(Front(t));
    }
  }

  /** In each cycle the calls follow the selected order, call no item twice, and are
      at most as many as its capacity. */
  lemma CallsFollowSelection(now: int, ls: seq<Label>)
    ensures var t := Exec(Init(now), ls).trace;
            var called := CalledNow(t);
            && Subsequence(called, Selection(t))
            && |called| <= |Selection(t)| <= Max(0, CycleCapacity(t))
            && forall i, j | 0 <= i < j < |called| :: called[i] != called[j]
  {
    RunIsTracked(now, ls);
    var w := Exec(Init(now), ls);
    var t := w.trace;
    if !w.pc.Down? && !w.pc.Loaded? { AbandonSelection(CalledNow(t), Selection(t), Remaining(w.pc)); }
    if Selection(t) != [] {
      SelectionCameFromCycle(t);
      BegunCycleIsPrepared(now, ls);
      var k :| 0 <= k < |t| && t[k].CycleBegan? && Selection(t) == RunnableItems(t[k].prepared, t[k].capacity);
      SelectionIsQueue(t[k].prepared, t[k].capacity);
    }
    SelectionIsWithinCapacity(t);
    hide RunnableItems;
    SubsequenceIsDistinct(CalledNow(t), Selection(t));
  }

  // ----- Approval before execution -----

  lemma {:induction false} LatestWasRecorded(log: seq<Event>, id: string)
    requires Latest(log, id).Some?
    ensures Recorded(id, Latest(log, id).value) in log
  {
    if !(Last(log).Recorded? && Last(log).itemId == id) {
      LatestWasRecorded(Front(log), id);
    }
  }

  lemma {:induction false} SurvivorsArePast(t: seq<Event>)
    ensures forall e | e in Surviving(t).live || e in Surviving(t).saved :: e in t
  {
    if t != [] {
      SurvivorsArePast(Front(t));
      assert t == Front(t) + [Last(t)];
    }
  }

  lemma ApprovedCall(t: seq<Event>, k: nat)
    requires k < |t| && t[k].Invoked? && t[k].item.approvalRequired && CallOk(t[..k], t[k])
    ensures var it := t[k].item;
            && it.approvalRequestId != ""
            && Latest(Surviving(t[..k]).live, it.id).Some?
            && var a := Latest(Surviving(t[..k]).live, it.id).value;
               && a.decision == "approve" && a.requestId == it.approvalRequestId
               && a.channel == "teams" && a.verified
               && a.actorId != "" && a.tenantId != "" && a.receiptId != ""
               && exists m | 0 <= m < k :: t[m] == Recorded(it.id, a)
  {
    hide Surviving, Latest;
    var live, id := Surviving(t[..k]).live, t[k].item.id;
    LatestWasRecorded(live, id);
    SurvivorsArePast(t[..k]);
    var e := Recorded(id, Latest(live, id).value);
    var m :| 0 <= m < |t[..k]| && t[..k][m] == e;
    assert t[m] == e;
  }

  /** The handler is called for an entry that requires approval only if the entry names a
      request, a verified Teams approval of exactly that request was recorded earlier, and
      the last decision that the state file's lineage kept for the item is that approval. */
  lemma ApprovalBeforeExecution(now: int, ls: seq<Label>, k: nat, work: WorkInput)
    requires CalledFor(Exec(Init(now), ls).trace, k, work) && work.approvalRequired
    ensures var t := Exec(Init(now), ls).trace;
            && work.approvalRequestId != ""
            && Latest(Surviving(t[..k]).live, work.id).Some?
            && var a := Latest(Surviving(t[..k]).live, work.id).value;
               && a.decision == "approve" && a.requestId == work.approvalRequestId
               && a.channel == "teams" && a.verified
               && a.actorId != "" && a.tenantId != "" && a.receiptId != ""
               && exists m | 0 <= m < k :: t[m] == Recorded(work.id, a)
  {
    RunIsTracked(now, ls);
    CallCarries(now, ls, k, work);
    hide Exec, Init, Surviving, Latest, CallOk, Sound, HeldOk, DueOk, CountsOk, ApprovalsOk, CycleOk, SaveOk, ReceiptsOk,
      BooksOf;
    var t := Exec(Init(now), ls).trace;
    assert CallOk(t[..k], t[k]);
    ApprovedCall(t, k);
  }

  /** In a trace without a crash nothing recorded is lost. */
  lemma {:induction false} WithoutCrashAllSurvive(t: seq<Event>, id: string)
    requires Crashed !in t
    ensures Latest(Surviving(t).live, id) == Latest(t, id)
  {
    if t != [] {
      var front, e := Front(t), Last(t);
      assert t == front + [e];
      assert Crashed !in front && e != Crashed;
      WithoutCrashAllSurvive(front, id);
      var live := Surviving(front).live;
      if e.Recorded? {
        AppendParts(live, e);
        assert Surviving(t).live == live + [e];
      } else {
        assert Surviving(t).live == live;
      }
      hide Surviving;
    }
  }

  /** In a run without a crash before the call, the last decision recorded is the approval. */
  lemma LastDecisionGovernsUncrashedRuns(now: int, ls: seq<Label>, k: nat, work: WorkInput)
    requires var t := Exec(Init(now), ls).trace;
             CalledFor(t, k, work) && work.approvalRequired && Crashed !in t[..k]
    ensures var t := Exec(Init(now), ls).trace;
            var d := Latest(t[..k], work.id);
            d.Some? && d.value.decision == "approve" && d.value.requestId == work.approvalRequestId
  {
    ApprovalBeforeExecution(now, ls, k, work);
    hide Exec, Init, BooksOf;
    var t := Exec(Init(now), ls).trace;
    WithoutCrashAllSurvive(t[..k], work.id);
  }

  // ----- Which decisions are lost -----

  /** The event is a write of the state file. */
  predicate Saves(e: Event)
  {
    e.ClaimSaved? || e.OutcomeSaved? || e.FinalSaved?
  }

  /** A crash came after position m before any write of the state file did. */
  ghost predicate Lost(t: seq<Event>, m: nat)
  {
    exists c | m < c < |t| :: t[c] == Crashed && Unsaved(t, m, c)
  }

  ghost predicate Unsaved(t: seq<Event>, m: nat, c: nat)
    requires c <= |t|
  {
    forall s | m < s < c :: !Saves(t[s])
  }

  predicate Decides(e: Event, id: string)
  {
    e.Recorded? && e.itemId == id
  }

  lemma LostGrows(t: seq<Event>, m: nat)
    requires m + 1 < |t|
    ensures Lost(t, m) <==> Lost(Front(t), m) || (Last(t) == Crashed && Unsaved(t, m, |t| - 1))
    ensures Unsaved(t, m, |t|) <==> Unsaved(Front(t), m, |t| - 1) && !Saves(Last(t))
    ensures Unsaved(t, m, |t| - 1) <==> Unsaved(Front(t), m, |t| - 1)
  {
    var front := Front(t);
    assert forall i | 0 <= i < |front| :: front[i] == t[i];
    forall c | m < c < |front| ensures Unsaved(front, m, c) <==> Unsaved(t, m, c) {
    }
  }

  /** What the last decision about an item comes to: it stands as long as the state
      file was written between it and the first crash after it; otherwise the last
      decision saved before it is back in force. */
  lemma {:induction false} LastDecisionStandsExactly(t: seq<Event>, m: nat, id: string)
    requires m < |t| && Decides(t[m], id)
    requires forall i | m < i < |t| :: !Decides(t[i], id)
    ensures var saved := Latest(Surviving(t[..m]).saved, id);
            && Latest(Surviving(t).live, id) == (if Lost(t, m) then saved else Some(t[m].approval))
            && Latest(Surviving(t).saved, id) == (if Lost(t, m) || Unsaved(t, m, |t|) then saved else Some(t[m].approval))
  {
    var front := Front(t);
    if m + 1 == |t| {
      assert front == t[..m] && t[m] == Last(t);
      AppendParts(Surviving(front).live, Last(t));
    } else {
      assert front[..m] == t[..m] && front[m] == t[m];
      LastDecisionStandsExactly(front, m, id);
      LostGrows(t, m);
      hide Lost, Unsaved;
      if Last(t).Recorded? { AppendParts(Surviving(front).live, Last(t)); }
    }
  }

  /** For a call that needs approval, the last decision recorded before it is the
      approval it was made on, unless a crash lost that decision; then the call was
      made on the last one saved before it. */
  lemma CallFollowsTheDecisionThatStands(now: int, ls: seq<Label>, k: nat, m: nat, work: WorkInput)
    requires var t := Exec(Init(now), ls).trace;
             && CalledFor(t, k, work) && work.approvalRequired && m < k
             && Decides(t[m], work.id) && forall i | m < i < k :: !Decides(t[i], work.id)
    ensures var t := Exec(Init(now), ls).trace;
            if Lost(t[..k], m) then
              var before := Latest(Surviving(t[..m]).saved, work.id);
              before.Some? && before.value.decision == "approve" && before.value.requestId == work.approvalRequestId
            else t[m].approval.decision == "approve" && t[m].approval.requestId == work.approvalRequestId
  {
    ApprovalBeforeExecution(now, ls, k, work);
    var t := Exec(Init(now), ls).trace;
    hide Exec, Init, Surviving, Latest, Lost, BooksOf;
    assert t[..k][m] == t[m] && t[..k][..m] == t[..m];
    LastDecisionStandsExactly(t[..k], m, work.id);
  }
}
