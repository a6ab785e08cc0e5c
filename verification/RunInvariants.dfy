/** The invariants of whole runs, collected: each reading of the trace agrees with
    the state file, and every handler call was permitted by what preceded it. */
module RunInvariants {
  import opened Wrappers
  import opened WorkItems
  import opened Runs
  import opened Histories

  // ----- Order of calls within a cycle -----

  /** a is b with some members left out. */
  predicate Subsequence(a: seq<string>, b: seq<string>)
    decreases |b|
  {
    || a == []
    || (b != [] &&
        (|| Subsequence(a, b[..|b| - 1])
         || (a[|a| - 1] == b[|b| - 1] && Subsequence(a[..|a| - 1], b[..|b| - 1]))))
  }

  lemma {:induction false} SubsequenceOfLonger(a: seq<string>, b: seq<string>, n: nat)
    requires n <= |b| && Subsequence(a, b[..n])
    ensures Subsequence(a, b)
    decreases |b| - n
  {
    if n < |b| {
      assert b[..n + 1][..n] == b[..n];
      SubsequenceOfLonger(a, b, n + 1);
    } else {
      assert b[..n] == b;
    }
  }

  lemma {:induction false} SubsequenceIsDistinct(a: seq<string>, b: seq<string>)
    requires Subsequence(a, b)
    requires forall i, j | 0 <= i < j < |b| :: b[i] != b[j]
    ensures |a| <= |b|
    ensures forall i | 0 <= i < |a| :: a[i] in b
    ensures forall i, j | 0 <= i < j < |a| :: a[i] != a[j]
    decreases |b|
  {
    if a != [] {
      var c := b[..|b| - 1];
      if Subsequence(a, c) {
        SubsequenceIsDistinct(a, c);
      } else {
        SubsequenceIsDistinct(a[..|a| - 1], c);
        forall i, j | 0 <= i < j < |a| ensures a[i] != a[j] {
          if j < |a| - 1 {
            assert a[..|a| - 1][i] != a[..|a| - 1][j];
          } else {
            assert a[..|a| - 1][i] in c;
          }
        }
      }
    }
  }

  /** The selection of the last cycle that began. */
  function Selection(t: seq<Event>): seq<string>
  {
    if t == [] then []
    else match Last(t)
         case CycleBegan(_, _, capacity, prepared) => RunnableItems(prepared, capacity)
         case _ => Selection(Front(t))
  }

  /** The items whose handler was called since the last cycle began, in order. */
  function CalledNow(t: seq<Event>): seq<string>
  {
    if t == [] then []
    else match Last(t)
         case CycleBegan(_, _, _, _) => []
         case Invoked(it, _, _) => CalledNow(Front(t)) + [it.id]
         case _ => CalledNow(Front(t))
  }

  function Remaining(pc: Pc): seq<string>
  {
    match pc
    case Ready(q, _) => q
    case Claimed(id, q, _) => [id] + q
    case ClaimOnDisk(id, q, _) => [id] + q
    case InFlight(_, q, _) => q
    case Settled(_, _, q, _) => q
    case _ => []
  }

  /** What remains is the tail of the selection, and the calls come from before it. */
  predicate OnTrack(called: seq<string>, sel: seq<string>, rest: seq<string>)
  {
    && |rest| <= |sel|
    && rest == sel[|sel| - |rest|..]
    && Subsequence(called, sel[..|sel| - |rest|])
  }

  ghost predicate CycleOk(w: World)
  {
    var called, sel := CalledNow(w.trace), Selection(w.trace);
    if w.pc.Down? || w.pc.Loaded? then Subsequence(called, sel) else OnTrack(called, sel, Remaining(w.pc))
  }

  lemma FreshSelection(sel: seq<string>)
    ensures OnTrack([], sel, sel)
  {
    assert sel[0..] == sel;
  }

  /** Taking the next selected id, whether it is called or skipped. */
  lemma AdvanceSelection(called: seq<string>, sel: seq<string>, id: string, rest: seq<string>)
    requires OnTrack(called, sel, [id] + rest)
    ensures OnTrack(called, sel, rest)
    ensures OnTrack(called + [id], sel, rest)
  {
    var m := |sel| - |rest| - 1;
    assert sel[m..] == [id] + rest;
    assert sel[m + 1..] == sel[m..][1..] == rest;
    assert sel[m] == sel[m..][0] == id;
    assert sel[..m + 1][..m] == sel[..m];
    assert (called + [id])[..|called|] == called;
  }

  lemma AbandonSelection(called: seq<string>, sel: seq<string>, rest: seq<string>)
    requires OnTrack(called, sel, rest)
    ensures Subsequence(called, sel)
  {
    SubsequenceOfLonger(called, sel, |sel| - |rest|);
  }

  lemma CycleBegins(w: World, facts: map<string, bool>, now: int, capacity: int)
    requires CycleOk(w)
    ensures CycleOk(Next(w, BeginCycle(facts, now, capacity)))
  {
    hide ItemsOk, Succeeds, KeyOf, Candidate, Prepare, RunnableItems, Settle, AdmitWork, RecordApproval,
      ClaimItem, CompleteFromReceipt, Subsequence, OnTrack, QueueOk, InventoryOk, FinishCycle, OnlyActive, NoActive;
    if w.pc.Loaded? {
      var n := Next(w, BeginCycle(facts, now, capacity));
      AppendParts(w.trace, Last(n.trace));
      FreshSelection(Selection(n.trace));
    }
  }

  lemma CycleClaims(w: World)
    requires CycleOk(w)
    ensures CycleOk(Next(w, Claim))
  {
    hide ItemsOk, Succeeds, KeyOf, Candidate, Prepare, RunnableItems, Settle, AdmitWork, RecordApproval,
      ClaimItem, CompleteFromReceipt, Subsequence, OnTrack, QueueOk, InventoryOk, FinishCycle, OnlyActive, NoActive;
    if w.pc.Ready? && w.pc.queue != [] {
      var rest := w.pc.queue;
      assert rest == [rest[0]] + rest[1..];
      AdvanceSelection(CalledNow(w.trace), Selection(w.trace), rest[0], rest[1..]);
    }
  }

  lemma CycleCalls(w: World)
    requires Sound(w) && CycleOk(w)
    ensures CycleOk(Next(w, Invoke))
  {
    hide ItemsOk, Succeeds, KeyOf, Candidate, Prepare, RunnableItems, Settle, AdmitWork, RecordApproval,
      ClaimItem, CompleteFromReceipt, Subsequence, OnTrack, QueueOk, InventoryOk, FinishCycle, OnlyActive, NoActive;
    if w.pc.ClaimOnDisk? {
      CalledIdIsClaimed(w);
      AppendParts(w.trace, Last(Next(w, Invoke).trace));
      AdvanceSelection(CalledNow(w.trace), Selection(w.trace), w.pc.id, w.pc.queue);
    }
  }

  lemma CycleRest(w: World, l: Label)
    requires Sound(w) && CycleOk(w) && !l.BeginCycle? && !l.Claim? && !l.Invoke?
    ensures CycleOk(Next(w, l))
  {
    hide ItemsOk, Succeeds, KeyOf, Candidate, Prepare, RunnableItems, Settle, AdmitWork, RecordApproval,
      ClaimItem, CompleteFromReceipt, Subsequence, OnTrack, QueueOk, InventoryOk, FinishCycle, OnlyActive, NoActive;
    var n := Next(w, l);
    if |n.trace| > |w.trace| { AppendParts(w.trace, Last(n.trace)); }
    if n.pc.Down? && !w.pc.Down? && !w.pc.Loaded? {
      AbandonSelection(CalledNow(w.trace), Selection(w.trace), Remaining(w.pc));
    }
  }

  lemma CycleStep(w: World, l: Label)
    requires Sound(w) && CycleOk(w)
    ensures CycleOk(Next(w, l))
  {
    hide Sound, Next, CycleOk;
    match l
    case BeginCycle(facts, now, capacity) => CycleBegins(w, facts, now, capacity);
    case Claim => CycleClaims(w);
    case Invoke => CycleCalls(w);
    case _ => CycleRest(w, l);
  }

  lemma CalledIdIsClaimed(w: World)
    requires Sound(w) && w.pc.ClaimOnDisk?
    ensures w.pc.id in w.vol.items && w.vol.items[w.pc.id].id == w.pc.id
  {
    OnlyActiveIsActive(w.vol, w.pc.id);
    IdIsKey(w.vol, w.pc.id);
  }

  // ----- What the state file shows of an interrupted call -----

  /** The claim that the last checkpoint recorded, if that checkpoint was a claim. */
  function OpenClaim(t: seq<Event>): Option<string>
  {
    if t == [] then None
    else match Last(t)
         case ClaimSaved(id) => Some(id)
         case OutcomeSaved(_, _) => None
         case FinalSaved => None
         case _ => OpenClaim(Front(t))
  }

  ghost predicate SaveOk(w: World)
  {
    forall id :: IsActive(w.disk, id) <==> OpenClaim(w.trace) == Some(id)
  }

  lemma SaveStep(w: World, l: Label)
    requires Sound(w) && SaveOk(w)
    ensures SaveOk(Next(w, l))
  {
    hide ItemsOk, Succeeds, KeyOf, Candidate, Prepare, RunnableItems, Settle, AdmitWork, RecordApproval,
      ClaimItem, CompleteFromReceipt, IsActive;
    var n := Next(w, l);
    if |n.trace| > |w.trace| { AppendParts(w.trace, Last(n.trace)); }
  }

  // ----- Where receipts come from, and what time a call carries -----

  /** A saved outcome of the item carried this receipt. */
  predicate Sealed(t: seq<Event>, key: string, r: Receipt)
  {
    t != [] &&
    (|| (Last(t).OutcomeSaved? && KeyOf(Last(t).item) == key && Last(t).item.id == r.itemId
         && Last(t).outcome.receipt == r.receipt)
     || Sealed(Front(t), key, r))
  }

  function CycleTime(t: seq<Event>): Option<int>
  {
    if t == [] then None
    else match Last(t)
         case CycleBegan(_, now, _, _) => Some(now)
         case _ => CycleTime(Front(t))
  }

  ghost predicate ReceiptsOk(w: World)
  {
    && (w.pc.Settled? || w.vol.receipts == w.disk.receipts)
    && (forall k | k in w.disk.receipts :: w.disk.receipts[k].receipt != "" && Sealed(w.trace, k, w.disk.receipts[k]))
    && ((AboutToCall(w.pc) || w.pc.Ready? || w.pc.InFlight? || w.pc.Settled?) ==> CycleTime(w.trace) == Some(w.pc.now))
  }

  lemma ReceiptsStep(w: World, l: Label)
    requires Sound(w) && ReceiptsOk(w)
    ensures ReceiptsOk(Next(w, l))
  {
    hide InventoryOk, Succeeds, KeyOf, Candidate, RunnableItems, ApplyOutcome, ApprovalOf, MakeItem, RecoverItem,
      RecheckItem, ClaimItem, CompleteFromReceipt, QueueOk, MetricsOf;
    var n := Next(w, l);
    if |n.trace| > |w.trace| { AppendParts(w.trace, Last(n.trace)); }
    if l.CheckpointOutcome? && w.pc.Settled? { SavedReceiptIsSealed(w); }
  }

  lemma SavedReceiptIsSealed(w: World)
    requires Sound(w) && ReceiptsOk(w) && w.pc.Settled?
    ensures w.pc.id in w.vol.items
    ensures var t := w.trace + [OutcomeSaved(w.vol.items[w.pc.id], w.pc.outcome)];
            forall k | k in w.vol.receipts ::
              w.vol.receipts[k].receipt != "" && Sealed(t, k, w.vol.receipts[k])
  {
    hide Succeeds, ActionKey, Candidate, ApplyOutcome, QueueOk;
    ApplyOutcomeKeepsIdentity(w.disk.items[w.pc.id], w.pc.outcome, w.pc.now);
    IdIsKey(w.disk, w.pc.id);
    AppendParts(w.trace, OutcomeSaved(w.vol.items[w.pc.id], w.pc.outcome));
  }

  // ----- What every call in a trace satisfies -----

  ghost predicate CallOk(past: seq<Event>, e: Event)
    requires e.Invoked?
  {
    var it := e.item;
    && e.key == KeyOf(it)
    && CycleTime(past) == Some(e.now)
    && !Unresolved(past, it.id)
    && Due(past, it.id) == None
    && it.approval == Latest(Surviving(past).live, it.id)
    && ApprovalSatisfied(it)
    && (it.approval.Some? ==> it.approvalRequestId != "")
    && OpenClaim(past) == Some(it.id)
  }

  ghost predicate TraceOk(t: seq<Event>)
  {
    && (forall k | 0 <= k < |t| && t[k].Invoked? :: CallOk(t[..k], t[k]))
    && (forall k | 0 <= k < |t| && t[k].OutcomeSaved? :: Due(t[..k], t[k].item.id) == None)
  }

  ghost predicate Tracked(w: World)
  {
    && Sound(w) && HeldOk(w) && DueOk(w) && CountsOk(w) && ApprovalsOk(w) && CycleOk(w) && SaveOk(w)
    && ReceiptsOk(w) && TraceOk(w.trace)
  }

  lemma InvokeIsOk(w: World)
    requires Tracked(w) && w.pc.ClaimOnDisk?
    ensures w.pc.id in w.vol.items
    ensures var it := w.vol.items[w.pc.id]; CallOk(w.trace, Invoked(it, KeyOf(it), w.pc.now))
  {
    OnlyActiveIsActive(w.vol, w.pc.id);
    IdIsKey(w.vol, w.pc.id);
    var id := w.pc.id;
    assert ApprovalsOkFor(w, id);
    assert IsActive(w.disk, id);
    assert ItemOk(w.vol.items[id]);
    assert w.vol.items[id].phase == Running;
    assert Due(w.trace, id).Some? ==> Parked(w.vol, id, Due(w.trace, id).value);
  }

  lemma OutcomeIsOk(w: World)
    requires Tracked(w) && w.pc.Settled?
    ensures w.pc.id in w.vol.items && Due(w.trace, w.vol.items[w.pc.id].id) == None
  {
    hide Succeeds, KeyOf, ApplyOutcome, ItemOk;
    var id := w.pc.id;
    OnlyActiveIsActive(w.disk, id);
    IdIsKey(w.disk, id);
    SettleKeepsIds(w.disk, id, w.pc.outcome, w.pc.now);
    assert Due(w.trace, id).Some? ==> Parked(w.disk, id, Due(w.trace, id).value);
  }

  lemma TraceGrows(t: seq<Event>, e: Event)
    requires TraceOk(t)
    requires e.Invoked? ==> CallOk(t, e)
    requires e.OutcomeSaved? ==> Due(t, e.item.id) == None
    ensures TraceOk(t + [e])
  {
    hide CallOk, Due;
    var more := t + [e];
    AppendParts(t, e);
    forall k | 0 <= k < |t| ensures more[k] == t[k] && more[..k] == t[..k] { }
  }

  lemma TraceStep(w: World, l: Label)
    requires Tracked(w)
    ensures TraceOk(Next(w, l).trace)
  {
    hide Sound, HeldOk, DueOk, CountsOk, ApprovalsOk, CycleOk, SaveOk, ReceiptsOk, CallOk, KeyOf, Prepare, RunnableItems, Settle,
      AdmitWork, RecordApproval, ClaimItem, CompleteFromReceipt, TraceOk, Due, FinishCycle;
    var n := Next(w, l);
    if l.Invoke? && w.pc.ClaimOnDisk? { InvokeIsOk(w); }
    if l.CheckpointOutcome? && w.pc.Settled? { OutcomeIsOk(w); }
    if |n.trace| > |w.trace| {
      AppendParts(w.trace, Last(n.trace));
      TraceGrows(w.trace, Last(n.trace));
    }
  }

  lemma TrackedStep(w: World, l: Label)
    requires Tracked(w)
    ensures Tracked(Next(w, l))
  {
    StepKeeps(w, l);
    HeldStep(w, l);
    DueStep(w, l);
    CountsStep(w, l);
    ApprovalsStep(w, l);
    CycleStep(w, l);
    SaveStep(w, l);
    ReceiptsStep(w, l);
    TraceStep(w, l);
    hide Sound, HeldOk, DueOk, CountsOk, ApprovalsOk, CycleOk, SaveOk, ReceiptsOk, TraceOk, Next;
  }

  lemma {:induction false} RunIsTracked(now: int, ls: seq<Label>)
    ensures Tracked(Exec(Init(now), ls))
    decreases |ls|
  {
    hide Sound, HeldOk, DueOk, CountsOk, ApprovalsOk, CycleOk, SaveOk, ReceiptsOk, TraceOk, Next;
    if ls == [] {
      InitIsTracked(now);
    } else {
      RunIsTracked(now, ls[..|ls| - 1]);
      TrackedStep(Exec(Init(now), ls[..|ls| - 1]), ls[|ls| - 1]);
    }
  }

  lemma InitIsTracked(now: int)
    ensures Tracked(Init(now))
  {
    InitIsSound(now);
    var w := Init(now);
    forall id ensures CountsOkFor(w, id) && ApprovalsOkFor(w, id) && (IsActive(w.disk, id) <==> OpenClaim(w.trace) == Some(id)) { }
  }
}
