/** What the items of a run owe to the work entries they were made from: the flags of
    the entry, and the dependency an item has to wait for. Entries are read off the
    trace, with those lost to a crash taken out again. */
module Admissions {
  import opened Wrappers
  import opened WorkItems
  import opened Runs
  import opened Histories
  import opened RunInvariants
  import Text

  /** The first entry taken in under each id, and the dependency each waiting item was
      sent to wait for and that no cycle has found established since. */
  datatype Book = Book(entries: map<string, WorkInput>, gates: map<string, string>)

  datatype Books = Books(saved: Book, live: Book)

  predicate Established(facts: map<string, bool>, dependency: string)
  {
    dependency in facts && facts[dependency]
  }

  function TakeIn(b: Book, w: WorkInput): Book
  {
    if w.id in b.entries then b
    else Book(b.entries[w.id := w], if w.dependency == "" then b.gates else b.gates[w.id := w.dependency])
  }

  function OpenGates(b: Book, facts: map<string, bool>): Book
  {
    b.(gates := map id | id in b.gates && !Established(facts, b.gates[id]) :: b.gates[id])
  }

  function CloseGate(b: Book, id: string, o: Outcome): Book
  {
    b.(gates := if o.status == "waiting" && o.dependency != "" then b.gates[id := o.dependency] else b.gates - {id})
  }

  function BooksOf(t: seq<Event>): Books
  {
    if t == [] then Books(Book(map[], map[]), Book(map[], map[]))
    else
      var b := BooksOf(Front(t));
      match Last(t)
      case TakenIn(w, _) => b.(live := TakeIn(b.live, w))
      case CycleBegan(facts, _, _, _) => b.(live := OpenGates(b.live, facts))
      case OutcomeSaved(it, o) => Books(CloseGate(b.live, it.id, o), CloseGate(b.live, it.id, o))
      case ClaimSaved(_) => Books(b.live, b.live)
      case FinalSaved => Books(b.live, b.live)
      case Crashed => Books(b.saved, b.saved)
      case _ => b
  }

  lemma BooksOfAppend(t: seq<Event>, e: Event)
    ensures BooksOf(t + [e])
            == var b := BooksOf(t);
               match e
               case TakenIn(w, _) => b.(live := TakeIn(b.live, w))
               case CycleBegan(facts, _, _, _) => b.(live := OpenGates(b.live, facts))
               case OutcomeSaved(it, o) => Books(CloseGate(b.live, it.id, o), CloseGate(b.live, it.id, o))
               case ClaimSaved(_) => Books(b.live, b.live)
               case FinalSaved => Books(b.live, b.live)
               case Crashed => Books(b.saved, b.saved)
               case _ => b
  {
    AppendParts(t, e);
  }

  /** The item has the flags of the entry. */
  predicate Carries(it: Item, w: WorkInput)
  {
    && it.id == w.id && it.action == w.action
    && it.priority == (if w.priority == 0 then 100 else w.priority)
    && it.approved == w.approved
    && it.approvalRequired == w.approvalRequired && it.approvalRequestId == w.approvalRequestId
    && it.idempotent == w.idempotent
  }

  ghost predicate Gated(inv: Inventory, id: string, dependency: string)
  {
    id in inv.items && inv.items[id].phase == Waiting && inv.items[id].dependency == dependency != ""
  }

  ghost predicate Matches(inv: Inventory, b: Book, id: string)
  {
    && (id in inv.items <==> id in b.entries)
    && (id in inv.items && id in b.entries ==> Carries(inv.items[id], b.entries[id]))
    && (id in b.gates ==> Gated(inv, id, b.gates[id]))
  }

  ghost predicate BooksOkFor(w: World, id: string)
  {
    Matches(w.disk, BooksOf(w.trace).saved, id) && Matches(w.vol, BooksOf(w.trace).live, id)
  }

  /** The item about to be called is approved work. */
  ghost predicate ClaimOk(w: World)
  {
    AboutToCall(w.pc) ==> w.pc.id in w.vol.items && w.vol.items[w.pc.id].approved
  }

  /** An item whose outcome is not saved yet is sent to wait for nothing. */
  ghost predicate Ungated(w: World)
  {
    w.pc.Settled? ==> w.pc.id !in BooksOf(w.trace).live.gates
  }

  /** What the books say about the item of an event before it happens. */
  ghost predicate EventOk(past: seq<Event>, e: Event)
  {
    match e
    case Invoked(it, key, _) =>
      var b := BooksOf(past).live;
      && it.id in b.entries && Carries(it, b.entries[it.id]) && it.approved && it.id !in b.gates
      && key == it.id + "|" + it.action + "|1"
    case OutcomeSaved(it, _) =>
      var b := BooksOf(past).live;
      it.id in b.entries && Carries(it, b.entries[it.id]) && it.id !in b.gates
    case _ => true
  }

  ghost predicate EventsOk(t: seq<Event>)
  {
    forall k | 0 <= k < |t| :: EventOk(t[..k], t[k])
  }

  ghost predicate Entered(w: World)
  {
    Tracked(w) && (forall id :: BooksOkFor(w, id)) && ClaimOk(w) && Ungated(w) && EventsOk(w.trace)
  }

  // ----- One inventory to the next -----

  /** Nothing that the books record has changed. */
  ghost predicate Alike(a: Inventory, b: Inventory, id: string)
  {
    && (id in a.items <==> id in b.items)
    && (id in a.items && id in b.items ==>
          && SameIdentity(a.items[id], b.items[id])
          && (a.items[id].phase == Waiting ==>
                b.items[id].phase == Waiting && b.items[id].dependency == a.items[id].dependency))
  }

  lemma AlikeMatches(a: Inventory, b: Inventory, book: Book, id: string)
    requires Matches(a, book, id) && Alike(a, b, id)
    ensures Matches(b, book, id)
  {
  }

  lemma RecordIsAlike(inv: Inventory, entry: ApprovalInput, id: string)
    requires RecordApproval(inv, entry).Ok?
    ensures Alike(inv, RecordApproval(inv, entry).value, id)
  {
    hide ApprovalOf;
  }

  lemma ClaimIsAlike(w: World, id: string)
    requires w.pc.Ready? && w.pc.queue != [] && QueueOk(w.pc.queue, w.vol)
    ensures w.pc.queue[0] in w.vol.items && Alike(w.vol, ClaimHead(w).vol, id)
  {
    HeadIsCandidate(w.pc.queue, w.vol);
    hide KeyOf, QueueOk, ApprovalSatisfied;
  }

  lemma SettleIsAlike(inv: Inventory, x: string, o: Outcome, now: int, id: string)
    requires x in inv.items && inv.items[x].phase != Waiting
    ensures Alike(inv, Settle(inv, x, o, now), id)
  {
    ApplyOutcomeKeepsIdentity(inv.items[x], o, now);
    hide KeyOf, ApplyOutcome;
  }

  lemma RecoverKeepsEntry(it: Item, receipts: map<string, Receipt>, now: int)
    ensures var r := RecoverItem(it, receipts, now);
            SameIdentity(it, r) && (it.phase == Waiting ==> r == it)
  {
    hide KeyOf, InterruptedIdempotent, InterruptedUnknown, Reconciliation;
  }

  lemma RecheckKeepsEntry(it: Item, facts: map<string, bool>, now: int)
    ensures var r := RecheckItem(it, facts, now);
            && SameIdentity(it, r)
            && (it.phase == Waiting && it.dependency != "" && !Established(facts, it.dependency) ==> r == it)
  {
    hide RetryableReason;
  }

  lemma PrepareMatches(inv: Inventory, facts: map<string, bool>, now: int, book: Book, id: string)
    requires Matches(inv, book, id)
    ensures Matches(Prepare(inv, facts, now), OpenGates(book, facts), id)
  {
    hide RecoverItem, RecheckItem;
    if id in inv.items {
      RecoverKeepsEntry(inv.items[id], inv.receipts, now);
      RecheckKeepsEntry(RecoverItem(inv.items[id], inv.receipts, now), facts, now);
    }
  }

  lemma AdmitMatches(inv: Inventory, w: WorkInput, at: int, book: Book, id: string)
    requires AdmitWork(inv, w, at).Ok? && Matches(inv, book, id) && Matches(inv, book, w.id)
    ensures Matches(AdmitWork(inv, w, at).value, TakeIn(book, w), id)
  {
  }

  lemma SettledMatches(inv: Inventory, x: string, o: Outcome, now: int, book: Book, id: string)
    requires x in inv.items && Matches(Settle(inv, x, o, now), book, id)
    ensures Matches(Settle(inv, x, o, now), CloseGate(book, x, o), id)
  {
    hide KeyOf, ClassifyReason, ApplyFailure;
  }

  // ----- One step -----

  lemma BooksInputStep(w: World, l: Label, id: string)
    requires Sound(w) && BooksOkFor(w, id) && (forall x :: BooksOkFor(w, x))
    requires l.Admit? || l.Approve? || l.BeginCycle? || l.Finish?
    ensures BooksOkFor(Next(w, l), id)
  {
    hide Matches, Prepare, RunnableItems, AdmitWork, RecordApproval, Sound, TakeIn, OpenGates, FinishCycle, ApprovalOf;
    var n := Next(w, l);
    if |n.trace| > |w.trace| {
      AppendParts(w.trace, Last(n.trace));
      BooksOfAppend(w.trace, Last(n.trace));
    }
    hide BooksOf;
    match l
    case Admit(work, at) =>
      if w.pc.Loaded? && AdmitWork(w.vol, work, at).Ok? {
        assert BooksOkFor(w, work.id);
        AdmitMatches(w.vol, work, at, BooksOf(w.trace).live, id);
      }
    case Approve(entry) =>
      if w.pc.Loaded? && RecordApproval(w.vol, entry).Ok? {
        RecordIsAlike(w.vol, entry, id);
        AlikeMatches(w.vol, n.vol, BooksOf(w.trace).live, id);
      }
    case BeginCycle(facts, now, capacity) =>
      if w.pc.Loaded? { PrepareMatches(w.vol, facts, now, BooksOf(w.trace).live, id); }
    case Finish =>
      if w.pc.Ready? && w.pc.queue == [] {
        FinishIsAlike(w.vol, w.pc.now, id);
        AlikeMatches(w.vol, n.vol, BooksOf(w.trace).live, id);
      }
  }

  lemma FinishIsAlike(inv: Inventory, now: int, id: string)
    ensures Alike(inv, FinishCycle(inv, now), id)
  {
    hide MetricsOf;
  }

  lemma BooksItemStep(w: World, l: Label, id: string)
    requires Sound(w) && BooksOkFor(w, id) && (l.Claim? || l.Return?)
    ensures BooksOkFor(Next(w, l), id)
  {
    hide Matches, ClaimHead, Settle, BooksOf, InventoryOk, Succeeds, QueueOk;
    var n := Next(w, l);
    match l
    case Claim =>
      if w.pc.Ready? && w.pc.queue != [] {
        ClaimIsAlike(w, id);
        ClaimTrace(w);
        AlikeMatches(w.vol, n.vol, BooksOf(w.trace).live, id);
      }
    case Return(o) =>
      if w.pc.InFlight? {
        RunningItem(w);
        SettleIsAlike(w.vol, w.pc.id, o, w.pc.now, id);
        AlikeMatches(w.vol, n.vol, BooksOf(w.trace).live, id);
      }
  }

  lemma ClaimTrace(w: World)
    requires w.pc.Ready? && w.pc.queue != [] && w.pc.queue[0] in w.vol.items
    ensures ClaimHead(w).trace == w.trace && ClaimHead(w).disk == w.disk
  {
  }

  lemma RunningItem(w: World)
    requires Sound(w) && (w.pc.InFlight? || AboutToCall(w.pc))
    ensures w.pc.id in w.vol.items && Active(w.vol.items[w.pc.id].phase) && w.vol.items[w.pc.id].id == w.pc.id
  {
    OnlyActiveIsActive(w.vol, w.pc.id);
    IdIsKey(w.vol, w.pc.id);
  }

  lemma BooksQuietStep(w: World, l: Label, id: string)
    requires Sound(w) && BooksOkFor(w, id)
    requires l.Start? || l.CheckpointClaim? || l.Invoke? || l.Persist? || l.Crash?
    ensures BooksOkFor(Next(w, l), id)
  {
    hide Matches, InventoryOk, Succeeds, QueueOk, Settle, KeyOf;
    var n := Next(w, l);
    if |n.trace| > |w.trace| {
      AppendParts(w.trace, Last(n.trace));
      BooksOfAppend(w.trace, Last(n.trace));
    }
    hide BooksOf;
  }

  lemma BooksOutcomeStep(w: World, id: string)
    requires Sound(w) && BooksOkFor(w, id)
    ensures BooksOkFor(Next(w, CheckpointOutcome), id)
  {
    hide Matches, InventoryOk, Succeeds, QueueOk, Settle, CloseGate;
    if w.pc.Settled? && w.pc.id in w.vol.items {
      SettledId(w);
      BooksOfAppend(w.trace, OutcomeSaved(w.vol.items[w.pc.id], w.pc.outcome));
      SettledMatches(w.disk, w.pc.id, w.pc.outcome, w.pc.now, BooksOf(w.trace).live, id);
    }
    hide BooksOf;
  }

  lemma SettledId(w: World)
    requires Sound(w) && w.pc.Settled?
    ensures w.pc.id in w.vol.items && w.vol.items[w.pc.id].id == w.pc.id
  {
    IdIsKey(w.disk, w.pc.id);
    SettleKeepsIds(w.disk, w.pc.id, w.pc.outcome, w.pc.now);
    hide Settle;
  }

  lemma BooksStep(w: World, l: Label, id: string)
    requires Sound(w) && forall x :: BooksOkFor(w, x)
    ensures BooksOkFor(Next(w, l), id)
  {
    hide Sound, BooksOkFor, Next;
    assert BooksOkFor(w, id);
    match l
    case Admit(_, _) => BooksInputStep(w, l, id);
    case Approve(_) => BooksInputStep(w, l, id);
    case BeginCycle(_, _, _) => BooksInputStep(w, l, id);
    case Finish => BooksInputStep(w, l, id);
    case Claim => BooksItemStep(w, l, id);
    case Return(_) => BooksItemStep(w, l, id);
    case CheckpointOutcome => BooksOutcomeStep(w, id);
    case _ => BooksQuietStep(w, l, id);
  }

  lemma ClaimOkStep(w: World, l: Label)
    requires Sound(w) && ClaimOk(w)
    ensures ClaimOk(Next(w, l))
  {
    hide InventoryOk, Succeeds, Settle, AdmitWork, RecordApproval, Prepare, RunnableItems, FinishCycle, KeyOf,
      ApprovalSatisfied, QueueOk, CompleteFromReceipt;
    if l.Claim? && w.pc.Ready? && w.pc.queue != [] { HeadIsCandidate(w.pc.queue, w.vol); }
  }

  lemma EventsGrow(t: seq<Event>, e: Event)
    requires EventsOk(t) && EventOk(t, e)
    ensures EventsOk(t + [e])
  {
    hide EventOk;
    var more := t + [e];
    AppendParts(t, e);
    forall k | 0 <= k < |t| ensures more[k] == t[k] && more[..k] == t[..k] { }
  }

  lemma CallIsEntered(w: World)
    requires Entered(w) && w.pc.ClaimOnDisk?
    ensures w.pc.id in w.vol.items
    ensures var it := w.vol.items[w.pc.id]; EventOk(w.trace, Invoked(it, KeyOf(it), w.pc.now))
  {
    hide EventsOk, HeldOk, DueOk, CountsOk, ApprovalsOk, CycleOk, SaveOk, ReceiptsOk, TraceOk, Sound, BooksOf, KeyOf;
    RunningItem(w);
    assert BooksOkFor(w, w.pc.id);
    SoundItems(w);
    KeyIsWrittenOut(w.vol, w.pc.id);
  }

  lemma SoundItems(w: World)
    requires Sound(w)
    ensures ItemsOk(w.vol)
  {
  }

  lemma KeyIsWrittenOut(inv: Inventory, id: string)
    requires ItemsOk(inv) && id in inv.items
    ensures KeyOf(inv.items[id]) == inv.items[id].id + "|" + inv.items[id].action + "|1"
  {
    assert Text.Decimal(1) == "1";
    hide Text.Decimal;
  }

  lemma OutcomeIsEntered(w: World)
    requires Entered(w) && w.pc.Settled?
    ensures w.pc.id in w.vol.items
    ensures EventOk(w.trace, OutcomeSaved(w.vol.items[w.pc.id], w.pc.outcome))
  {
    hide EventsOk, HeldOk, DueOk, CountsOk, ApprovalsOk, CycleOk, SaveOk, ReceiptsOk, TraceOk, BooksOf, KeyOf, Succeeds,
      QueueOk, ApplyOutcome, ItemOk;
    var id := w.pc.id;
    SettledId(w);
    assert BooksOkFor(w, id);
    assert IsActive(w.disk, id);
  }

  lemma UngatedStep(w: World, l: Label)
    requires Sound(w) && Ungated(w) && forall id :: BooksOkFor(w, id)
    ensures Ungated(Next(w, l))
  {
    hide InventoryOk, Succeeds, Settle, AdmitWork, RecordApproval, Prepare, RunnableItems, FinishCycle, KeyOf, QueueOk,
      ClaimItem, CompleteFromReceipt, BooksOf;
    if l.Return? && w.pc.InFlight? {
      RunningItem(w);
      assert BooksOkFor(w, w.pc.id);
    }
  }

  lemma EventsStep(w: World, l: Label)
    requires Entered(w)
    ensures EventsOk(Next(w, l).trace)
  {
    hide Tracked, EventOk, EventsOk, KeyOf, Prepare, RunnableItems, Settle, AdmitWork, RecordApproval, ClaimItem,
      CompleteFromReceipt, FinishCycle, BooksOkFor, ClaimOk, Ungated;
    var n := Next(w, l);
    if |n.trace| > |w.trace| {
      var e := Last(n.trace);
      AppendParts(w.trace, e);
      assert EventOk(w.trace, e) by {
        if l.Invoke? && w.pc.ClaimOnDisk? { CallIsEntered(w); }
        if l.CheckpointOutcome? && w.pc.Settled? { OutcomeIsEntered(w); }
        OtherEventsAreOk(w.trace, e);
      }
      EventsGrow(w.trace, e);
    }
  }

  lemma OtherEventsAreOk(t: seq<Event>, e: Event)
    ensures !e.Invoked? && !e.OutcomeSaved? ==> EventOk(t, e)
  {
  }

  lemma EnteredStep(w: World, l: Label)
    requires Entered(w)
    ensures Entered(Next(w, l))
  {
    TrackedStep(w, l);
    ClaimOkStep(w, l);
    UngatedStep(w, l);
    EventsStep(w, l);
    assert Sound(w);
    hide Tracked, Next, BooksOkFor, ClaimOk, Ungated, EventsOk;
    forall id ensures BooksOkFor(Next(w, l), id) {
      BooksStep(w, l, id);
    }
  }

  lemma InitIsEntered(now: int)
    ensures Entered(Init(now))
  {
    InitIsTracked(now);
  }

  lemma {:induction false} RunIsEntered(now: int, ls: seq<Label>)
    ensures Entered(Exec(Init(now), ls))
    decreases |ls|
  {
    hide Entered, Next;
    if ls == [] {
      InitIsEntered(now);
    } else {
      RunIsEntered(now, ls[..|ls| - 1]);
      EnteredStep(Exec(Init(now), ls[..|ls| - 1]), ls[|ls| - 1]);
    }
  }

  // ----- What every run keeps of its input -----

  /** In every run the items on disk, and those in memory, are exactly those of the first
      entries taken in under each id, and carry the flags of these entries. */
  lemma ItemsCarryTheirEntries(now: int, ls: seq<Label>, id: string)
    ensures var w := Exec(Init(now), ls);
            var b := BooksOf(w.trace);
            && (id in w.disk.items <==> id in b.saved.entries)
            && (id in w.vol.items <==> id in b.live.entries)
            && (id in w.disk.items ==> Carries(w.disk.items[id], b.saved.entries[id]))
            && (id in w.vol.items ==> Carries(w.vol.items[id], b.live.entries[id]))
  {
    RunIsEntered(now, ls);
    hide Exec, Init, BooksOf, Tracked, EventsOk, Carries;
    assert BooksOkFor(Exec(Init(now), ls), id);
  }

  /** The k-th event is a call for the item of this entry. */
  ghost predicate CalledFor(t: seq<Event>, k: nat, work: WorkInput)
  {
    && k < |t| && t[k].Invoked?
    && work.id in BooksOf(t[..k]).live.entries && BooksOf(t[..k]).live.entries[work.id] == work
    && t[k].item.id == work.id
  }

  /** Every call is a call for an entry, and the entry is approved work; the item handed to
      the handler carries its flags, and the key is made of its id and action. */
  lemma CallsCarryTheirEntries(now: int, ls: seq<Label>, k: nat) returns (work: WorkInput)
    requires var t := Exec(Init(now), ls).trace; k < |t| && t[k].Invoked?
    ensures var t := Exec(Init(now), ls).trace;
            && CalledFor(t, k, work) && work.approved
            && Carries(t[k].item, work) && t[k].key == work.id + "|" + work.action + "|1"
  {
    RunIsEntered(now, ls);
    hide Exec, Init, BooksOf, Tracked, BooksOkFor;
    var t := Exec(Init(now), ls).trace;
    assert EventOk(t[..k], t[k]);
    work := BooksOf(t[..k]).live.entries[t[k].item.id];
  }

  lemma CallCarries(now: int, ls: seq<Label>, k: nat, work: WorkInput)
    requires CalledFor(Exec(Init(now), ls).trace, k, work)
    ensures Carries(Exec(Init(now), ls).trace[k].item, work)
  {
    var same := CallsCarryTheirEntries(now, ls, k);
    hide Exec, Init, BooksOf;
  }

  /** A new item is what its entry says: waiting exactly when the entry has a dependency,
      without approval, attempts or outcome. */
  lemma NewItemsStartAsTheirEntriesSay(now: int, ls: seq<Label>, work: WorkInput, at: int)
    requires var w := Exec(Init(now), ls); w.pc.Loaded? && work.id !in w.vol.items
    ensures var w, n := Exec(Init(now), ls), Next(Exec(Init(now), ls), Admit(work, at));
            if work.id == "" || work.action == "" then n.pc.Down? && n.vol == w.disk == n.disk
            else
              && n.pc.Loaded? && n.disk == w.disk
              && n.vol.items.Keys == w.vol.items.Keys + {work.id}
              && (forall x | x in w.vol.items :: n.vol.items[x] == w.vol.items[x])
              && n.vol.receipts == w.vol.receipts
              && var it := n.vol.items[work.id];
                 && Carries(it, work)
                 && (it.phase == Waiting <==> work.dependency != "") && (it.phase == Runnable <==> work.dependency == "")
                 && it.dependency == work.dependency
                 && it.reason == (if work.dependency != "" then "dependency_wait" else "")
                 && it.approval == None && it.lastOutcome == None && it.nextAttemptAt == None && it.claimedAt == None
                 && it.generation == 1 && it.attempts == 0 && it.maxAttempts == 3
                 && it.updatedAt == it.lastProgressAt == at
  {
    hide Exec, Init;
  }

  /** An entry for an id that is known changes nothing. */
  lemma KnownIdsAreLeftAlone(w: World, work: WorkInput, at: int)
    requires w.pc.Loaded? && work.id in w.vol.items && work.id != "" && work.action != ""
    ensures var n := Next(w, Admit(work, at)); n.vol == w.vol && n.disk == w.disk && n.pc == w.pc
  {
  }

  // ----- Dependencies before execution -----

  predicate Establishes(e: Event, dependency: string)
  {
    e.CycleBegan? && Established(e.facts, dependency)
  }

  /** The item waits for this dependency, in the books of the file and of the memory. */
  ghost predicate Closed(b: Book, id: string, d: string)
  {
    id in b.entries && id in b.gates && b.gates[id] == d
  }

  lemma {:induction false} GateStaysClosed(t: seq<Event>, j: nat, k: nat, id: string, d: string)
    requires j < k <= |t| && EventsOk(t)
    requires t[j].OutcomeSaved? && t[j].item.id == id && t[j].outcome.status == "waiting" && t[j].outcome.dependency == d != ""
    requires forall m | j < m < k :: !Establishes(t[m], d)
    ensures Closed(BooksOf(t[..k]).saved, id, d) && Closed(BooksOf(t[..k]).live, id, d)
    decreases k - j
  {
    var front, e := t[..k - 1], t[k - 1];
    assert t[..k] == front + [e];
    BooksOfAppend(front, e);
    assert EventOk(front, e);
    if k - 1 > j {
      GateStaysClosed(t, j, k - 1, id, d);
    }
    hide BooksOf, EventsOk, Carries;
  }

  /** After an outcome that sent its item to wait for a dependency, the item is not called
      until a cycle has found that dependency established, whatever crashes in between. */
  lemma WaitingEndsWithItsDependency(now: int, ls: seq<Label>, j: nat, k: nat)
    requires var t := Exec(Init(now), ls).trace;
             && j < k < |t| && t[j].OutcomeSaved? && t[j].outcome.status == "waiting" && t[j].outcome.dependency != ""
             && t[k].Invoked? && t[k].item.id == t[j].item.id
    ensures var t := Exec(Init(now), ls).trace;
            exists m | j < m < k :: Establishes(t[m], t[j].outcome.dependency)
  {
    RunIsEntered(now, ls);
    hide Exec, Init, Tracked, BooksOf, Carries;
    var t := Exec(Init(now), ls).trace;
    assert EventOk(t[..k], t[k]);
    if forall m | j < m < k :: !Establishes(t[m], t[j].outcome.dependency) {
      GateStaysClosed(t, j, k, t[j].item.id, t[j].outcome.dependency);
    }
  }

  lemma {:induction false} EntryStaysGated(t: seq<Event>, j: nat, k: nat, id: string, d: string)
    requires j < k <= |t| && EventsOk(t) && Crashed !in t[j..k]
    requires t[j].TakenIn? && t[j].work.id == id && t[j].work.dependency == d != ""
    requires id !in BooksOf(t[..j]).live.entries
    requires forall m | j < m < k :: !Establishes(t[m], d)
    ensures Closed(BooksOf(t[..k]).live, id, d)
    decreases k - j
  {
    var front, e := t[..k - 1], t[k - 1];
    assert t[..k] == front + [e] && e == t[j..k][k - 1 - j];
    BooksOfAppend(front, e);
    assert EventOk(front, e);
    if k - 1 > j {
      assert t[j..k - 1] == t[j..k][..k - 1 - j];
      EntryStaysGated(t, j, k - 1, id, d);
    }
    hide BooksOf, EventsOk, Carries;
  }

  /** Likewise for an entry taken in with a dependency, as long as no crash loses it. */
  lemma EntriesWaitForTheirDependency(now: int, ls: seq<Label>, j: nat, k: nat)
    requires var t := Exec(Init(now), ls).trace;
             && j < k < |t| && t[j].TakenIn? && t[j].work.dependency != "" && Crashed !in t[j..k]
             && t[j].work.id !in BooksOf(t[..j]).live.entries
             && t[k].Invoked? && t[k].item.id == t[j].work.id
    ensures var t := Exec(Init(now), ls).trace;
            exists m | j < m < k :: Establishes(t[m], t[j].work.dependency)
  {
    RunIsEntered(now, ls);
    hide Exec, Init, Tracked, BooksOf, Carries;
    var t := Exec(Init(now), ls).trace;
    assert EventOk(t[..k], t[k]);
    if forall m | j < m < k :: !Establishes(t[m], t[j].work.dependency) {
      EntryStaysGated(t, j, k, t[j].work.id, t[j].work.dependency);
    }
  }
}
