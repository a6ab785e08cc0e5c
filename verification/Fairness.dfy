/** How long a ready item can wait to be selected. */
module Fairness {
  import opened WorkItems
  import opened Runs
  import opened Cycles
  import Text

  // ----- The selection takes the first candidates of the order -----

  lemma SelectionIsFirstCandidates(inv: Inventory, capacity: int)
    requires IdsMatch(inv)
    ensures var q := RunnableItems(inv, capacity);
            && (forall i | 0 <= i < |q| :: q[i] in inv.items && Candidate(inv.items[q[i]]))
            && (forall i, j | 0 <= i < j < |q| ::
                  q[i] != q[j] && Before(RankOf(inv.items[q[i]]), RankOf(inv.items[q[j]])))
            && (forall i, id | 0 <= i < |q| && id in inv.items && Candidate(inv.items[id]) && id !in q ::
                  Before(RankOf(inv.items[q[i]]), RankOf(inv.items[id])))
            && (|q| == Slots(inv, capacity) || forall id | id in inv.items && Candidate(inv.items[id]) :: id in q)
  {
    hide Candidate, Before;
    var sorted := SortRanks(CandidateRanks(inv));
    var q := RunnableItems(inv, capacity);
    forall i | 0 <= i < |q|
      ensures q[i] in inv.items && Candidate(inv.items[q[i]]) && RankOf(inv.items[q[i]]) == sorted[i]
    {
      assert sorted[i] in CandidateRanks(inv);
    }
    forall i, j | 0 <= i < j < |q| ensures q[i] != q[j] {
      BeforeIsAsymmetric(sorted[i], sorted[j]);
    }
    forall id | id in inv.items && Candidate(inv.items[id]) && id !in q
      ensures |q| == Slots(inv, capacity)
      ensures forall i | 0 <= i < |q| :: Before(RankOf(inv.items[q[i]]), RankOf(inv.items[id]))
    {
      var r := RankOf(inv.items[id]);
      assert r in CandidateRanks(inv);
      var k :| 0 <= k < |sorted| && sorted[k] == r;
      assert forall i | 0 <= i < |q| :: q[i] == sorted[i].id;
    }
  }

  lemma PreparedHasNoActive(inv: Inventory, facts: map<string, bool>, now: int)
    ensures NoActive(Prepare(inv, facts, now)) && ActiveIds(Prepare(inv, facts, now)) == {}
  {
    hide KeyOf, RetryableReason, InterruptedIdempotent, InterruptedUnknown, Reconciliation, DependencySatisfied;
  }

  lemma OutcomeNeverRunnable(it: Item, o: Outcome, now: int)
    ensures ApplyOutcome(it, o, now).phase != Runnable
  {
    hide ClassifyReason, BackoffSeconds;
  }

  // ----- What happens between two cycles -----

  datatype Arrival = Work(work: WorkInput, at: int) | Decision(entry: ApprovalInput)

  function Receive(inv: Inventory, a: Arrival): Result<Inventory>
  {
    match a
    case Work(w, at) => AdmitWork(inv, w, at)
    case Decision(entry) => RecordApproval(inv, entry)
  }

  /** Every arrival is taken in; a rejected one would end the process before its cycle. */
  predicate Accepted(inv: Inventory, arrivals: seq<Arrival>)
    decreases |arrivals|
  {
    arrivals == [] ||
    (Receive(inv, arrivals[0]).Ok? && Accepted(Receive(inv, arrivals[0]).value, arrivals[1..]))
  }

  function ReceiveAll(inv: Inventory, arrivals: seq<Arrival>): Inventory
    requires Accepted(inv, arrivals)
    decreases |arrivals|
  {
    if arrivals == [] then inv else ReceiveAll(Receive(inv, arrivals[0]).value, arrivals[1..])
  }

  datatype Round = Round(arrivals: seq<Arrival>, facts: map<string, bool>, now: int, capacity: int, handler: Handler)

  ghost predicate CanRun(inv: Inventory, r: Round)
  {
    Accepted(inv, r.arrivals) && IdsMatch(ReceiveAll(inv, r.arrivals))
  }

  ghost function SelectedIn(inv: Inventory, r: Round): seq<string>
    requires CanRun(inv, r)
  {
    RunnableItems(Prepare(ReceiveAll(inv, r.arrivals), r.facts, r.now), r.capacity)
  }

  ghost function RunRound(inv: Inventory, r: Round): Inventory
    requires CanRun(inv, r)
  {
    RunCycle(ReceiveAll(inv, r.arrivals), r.facts, r.now, r.capacity, r.handler)
  }

  /** Some round of the sequence selects the item. */
  ghost predicate EverSelected(inv: Inventory, id: string, rounds: seq<Round>)
    decreases |rounds|
  {
    && rounds != []
    && CanRun(inv, rounds[0])
    && (id in SelectedIn(inv, rounds[0]) || EverSelected(RunRound(inv, rounds[0]), id, rounds[1..]))
  }

  predicate Outranks(a: Rank, b: Rank) { a.priority < b.priority }

  /** The items that can still get in the way by their priority: they outrank the item
      and are not finished. */
  ghost function Rivals(inv: Inventory, rank: Rank): set<string>
  {
    set x | x in inv.items && inv.items[x].phase !in {Complete, FailedExternal} && Outranks(RankOf(inv.items[x]), rank)
  }

  /** The circumstances under which waiting is bounded: capacity at least c, at most k
      rivals, cycle times and arrivals of the same priority later than the item's own
      time, and no new decision about the item itself. Rivals may come and go. */
  ghost predicate Patient(inv: Inventory, id: string, rounds: seq<Round>, c: nat, k: nat, rank: Rank)
    decreases |rounds|
  {
    rounds == [] ||
    (&& CanRun(inv, rounds[0])
     && rounds[0].capacity >= c
     && rounds[0].now > rank.updatedAt
     && (forall a | a in rounds[0].arrivals :: ArrivesBehind(a, id, rank))
     && |Rivals(ReceiveAll(inv, rounds[0].arrivals), rank)| <= k
     && Patient(RunRound(inv, rounds[0]), id, rounds[1..], c, k, rank))
  }

  ghost predicate ArrivesBehind(a: Arrival, id: string, rank: Rank)
  {
    match a
    case Work(w, at) => RankOf(MakeItem(w, at)).priority == rank.priority ==> at > rank.updatedAt
    case Decision(entry) => entry.itemId != id
  }

  ghost predicate WaitsAt(inv: Inventory, id: string, rank: Rank)
  {
    IdsMatch(inv) && id in inv.items && Candidate(inv.items[id]) && RankOf(inv.items[id]) == rank
  }

  /** The runnable items of the same priority in front of a rank, approved or not. */
  ghost function Ahead(inv: Inventory, rank: Rank): set<string>
  {
    set x | x in inv.items && inv.items[x].phase == Runnable
            && Before(RankOf(inv.items[x]), rank) && !Outranks(RankOf(inv.items[x]), rank)
  }

  lemma ReceiveKeepsPlace(inv: Inventory, a: Arrival, id: string, rank: Rank)
    requires WaitsAt(inv, id, rank) && Receive(inv, a).Ok? && ArrivesBehind(a, id, rank)
    ensures var r := Receive(inv, a).value; WaitsAt(r, id, rank) && Ahead(r, rank) <= Ahead(inv, rank)
  {
    hide ApprovalSatisfied, ApprovalOf;
  }

  lemma {:induction false} ReceiveAllKeepsPlace(inv: Inventory, arrivals: seq<Arrival>, id: string, rank: Rank)
    requires WaitsAt(inv, id, rank) && Accepted(inv, arrivals)
    requires forall a | a in arrivals :: ArrivesBehind(a, id, rank)
    ensures var r := ReceiveAll(inv, arrivals); WaitsAt(r, id, rank) && Ahead(r, rank) <= Ahead(inv, rank)
    decreases |arrivals|
  {
    hide WaitsAt, Ahead, Receive, ArrivesBehind;
    if arrivals != [] {
      ReceiveKeepsPlace(inv, arrivals[0], id, rank);
      ReceiveAllKeepsPlace(Receive(inv, arrivals[0]).value, arrivals[1..], id, rank);
    }
  }

  /** An item that a cycle's preparation touches moves behind everything older. */
  lemma PrepareMovesBack(it: Item, receipts: map<string, Receipt>, facts: map<string, bool>, now: int)
    ensures var p := RecheckItem(RecoverItem(it, receipts, now), facts, now);
            && RankOf(p).priority == RankOf(it).priority && p.id == it.id
            && (p == it || p.updatedAt == now)
            && (it.phase == Runnable || Terminal(it.phase) ==> p == it)
  {
    hide KeyOf, RetryableReason, InterruptedIdempotent, InterruptedUnknown, Reconciliation, DependencySatisfied;
  }

  lemma PrepareKeepsPlace(inv: Inventory, facts: map<string, bool>, now: int, id: string, rank: Rank)
    requires WaitsAt(inv, id, rank) && now > rank.updatedAt
    ensures var p := Prepare(inv, facts, now);
            WaitsAt(p, id, rank) && Ahead(p, rank) <= Ahead(inv, rank) && Rivals(p, rank) <= Rivals(inv, rank)
  {
    hide RecoverItem, RecheckItem, ApprovalSatisfied, RankOf;
    var p := Prepare(inv, facts, now);
    forall x | x in inv.items
      ensures x in p.items && p.items[x].id == x && RankOf(p.items[x]).priority == RankOf(inv.items[x]).priority
      ensures p.items[x] == inv.items[x] || RankOf(p.items[x]).updatedAt == now
      ensures inv.items[x].phase == Runnable || Terminal(inv.items[x].phase) ==> p.items[x] == inv.items[x]
    {
      PrepareMovesBack(inv.items[x], inv.receipts, facts, now);
      RankParts(p.items[x]);
    }
  }

  lemma RankParts(it: Item)
    ensures RankOf(it).updatedAt == it.updatedAt && RankOf(it).id == it.id
  {
  }

  lemma ProcessOneRetires(inv: Inventory, id: string, now: int, handler: Handler)
    requires IdsMatch(inv) && id in inv.items
    ensures var r := ProcessOne(inv, id, now, handler);
            && IdsMatch(r) && r.items.Keys == inv.items.Keys
            && r.items[id].phase != Runnable && RankOf(r.items[id]).priority == RankOf(inv.items[id]).priority
            && forall x | x in inv.items && x != id :: r.items[x] == inv.items[x]
  {
    hide KeyOf, ApplyOutcome;
    var claimed := ClaimItem(inv.items[id], now);
    var o := handler(claimed, KeyOf(inv.items[id]));
    OutcomeNeverRunnable(claimed, o, now);
    OutcomeKeepsRankParts(claimed, o, now);
  }

  lemma OutcomeKeepsRankParts(it: Item, o: Outcome, now: int)
    ensures var r := ApplyOutcome(it, o, now); r.id == it.id && r.priority == it.priority
  {
    hide ClassifyReason, BackoffSeconds;
  }

  lemma {:induction false} ProcessAllRetires(inv: Inventory, q: seq<string>, now: int, handler: Handler)
    requires IdsMatch(inv) && forall i | 0 <= i < |q| :: q[i] in inv.items
    requires forall i, j | 0 <= i < j < |q| :: q[i] != q[j]
    ensures var r := ProcessAll(inv, q, now, handler);
            && IdsMatch(r) && r.items.Keys == inv.items.Keys
            && (forall x | x in inv.items && x !in q :: r.items[x] == inv.items[x])
            && (forall x | x in inv.items :: RankOf(r.items[x]).priority == RankOf(inv.items[x]).priority)
            && (forall x | x in q :: r.items[x].phase != Runnable)
    decreases |q|
  {
    hide ProcessOne, RankOf;
    if q != [] {
      ProcessOneRetires(inv, q[0], now, handler);
      var one := ProcessOne(inv, q[0], now, handler);
      ProcessAllRetires(one, q[1..], now, handler);
      assert forall i | 0 < i < |q| :: q[1..][i - 1] == q[i];
      assert q[0] !in q[1..];
    }
  }

  lemma DistinctSize(q: seq<string>, s: set<string>)
    requires forall i | 0 <= i < |q| :: q[i] in s
    requires forall i, j | 0 <= i < j < |q| :: q[i] != q[j]
    ensures |set x | x in q| == |q| && (set x | x in q) <= s
  {
    if q != [] {
      var front := q[..|q| - 1];
      DistinctSize(front, s);
      assert (set x | x in q) == (set x | x in front) + {q[|q| - 1]};
    }
  }

  lemma FullQueueIsBefore(p: Inventory, capacity: int, id: string, c: nat, rank: Rank)
    requires WaitsAt(p, id, rank) && capacity >= c && ActiveIds(p) == {}
    requires id !in RunnableItems(p, capacity)
    ensures var q := RunnableItems(p, capacity);
            && |q| >= c
            && (forall i | 0 <= i < |q| :: q[i] in p.items && q[i] in Ahead(p, rank) + Rivals(p, rank))
            && (forall i, j | 0 <= i < j < |q| :: q[i] != q[j])
  {
    SelectionIsFirstCandidates(p, capacity);
    CandidatesAreRunnable(p);
    hide RunnableItems, Before, RankOf, Candidate;
  }

  /** All but the rivals among the selected leave the place ahead. */
  lemma RetiredAreNotAhead(p: Inventory, q: seq<string>, now: int, handler: Handler, id: string, rank: Rank)
    requires WaitsAt(p, id, rank) && id !in q
    requires forall i | 0 <= i < |q| :: q[i] in p.items && q[i] in Ahead(p, rank) + Rivals(p, rank)
    requires forall i, j | 0 <= i < j < |q| :: q[i] != q[j]
    ensures var done := FinishCycle(ProcessAll(p, q, now, handler), now);
            && WaitsAt(done, id, rank)
            && |Ahead(done, rank)| + |q| <= |Ahead(p, rank)| + |Rivals(p, rank)|
  {
    hide ProcessAll, Before, RankOf, Candidate, MetricsOf, Terminal;
    ProcessAllRetires(p, q, now, handler);
    var done := FinishCycle(ProcessAll(p, q, now, handler), now);
    DistinctSize(q, Ahead(p, rank) + Rivals(p, rank));
    var taken := set x | x in q;
    assert Ahead(done, rank) <= Ahead(p, rank) - taken;
    CountsDown(Ahead(done, rank), Ahead(p, rank), Rivals(p, rank), taken);
  }

  /** A cycle that does not select the item uses all but the rivals' share of its capacity
      on items of the same priority ahead of it, and none of them stays or returns ahead. */
  lemma MissedRoundMovesUp(inv: Inventory, r: Round, id: string, c: nat, k: nat, rank: Rank)
    requires WaitsAt(inv, id, rank) && CanRun(inv, r) && r.capacity >= c && r.now > rank.updatedAt
    requires forall a | a in r.arrivals :: ArrivesBehind(a, id, rank)
    requires |Rivals(ReceiveAll(inv, r.arrivals), rank)| <= k
    requires id !in SelectedIn(inv, r)
    ensures WaitsAt(RunRound(inv, r), id, rank)
    ensures |Ahead(RunRound(inv, r), rank)| + c <= |Ahead(inv, rank)| + k
  {
    hide Ahead, Rivals, WaitsAt, Prepare, RunnableItems, ProcessAll, ReceiveAll, ArrivesBehind, FinishCycle;
    var arrived := ReceiveAll(inv, r.arrivals);
    ReceiveAllKeepsPlace(inv, r.arrivals, id, rank);
    var p := Prepare(arrived, r.facts, r.now);
    PrepareKeepsPlace(arrived, r.facts, r.now, id, rank);
    PreparedHasNoActive(arrived, r.facts, r.now);
    FullQueueIsBefore(p, r.capacity, id, c, rank);
    RetiredAreNotAhead(p, RunnableItems(p, r.capacity), r.now, r.handler, id, rank);
    SubsetSize(Ahead(arrived, rank), Ahead(inv, rank));
    SubsetSize(Ahead(p, rank), Ahead(arrived, rank));
    SubsetSize(Rivals(p, rank), Rivals(arrived, rank));
  }

  lemma CandidatesAreRunnable(inv: Inventory)
    ensures forall x | x in inv.items && Candidate(inv.items[x]) :: inv.items[x].phase == Runnable
  {
  }

  lemma CountsDown(after: set<string>, before: set<string>, others: set<string>, taken: set<string>)
    requires taken <= before + others && after <= before - taken
    ensures |after| + |taken| <= |before| + |others|
  {
    SubsetSize(after + taken, before + others);
    assert |after + taken| == |after| + |taken|;
    SubsetSize(others - before, others);
    assert before + others == before + (others - before);
    assert |before + (others - before)| == |before| + |others - before|;
  }

  /** With capacity c per cycle, at most k unfinished items that outrank it at any time, and
      r runnable items of its own priority ahead of it, a ready item is selected within
      r / (c - k) + 1 cycles, provided that k is below c. */
  lemma {:induction false} BoundedWaiting(inv: Inventory, id: string, rounds: seq<Round>, c: nat, k: nat)
    requires k < c && id in inv.items && WaitsAt(inv, id, RankOf(inv.items[id]))
    requires Patient(inv, id, rounds, c, k, RankOf(inv.items[id]))
    requires |rounds| > |Ahead(inv, RankOf(inv.items[id]))| / (c - k)
    ensures EverSelected(inv, id, rounds)
    decreases |rounds|
  {
    hide WaitsAt, Ahead, Rivals, RankOf, SelectedIn, RunRound, CanRun, ArrivesBehind;
    var rank := RankOf(inv.items[id]);
    var r := rounds[0];
    if id !in SelectedIn(inv, r) {
      MissedRoundMovesUp(inv, r, id, c, k, rank);
      var next := RunRound(inv, r);
      WaitingRank(next, id, rank);
      var before, after := |Ahead(inv, rank)|, |Ahead(next, rank)|;
      OneFewer(before, after, c - k);
      BoundedWaiting(next, id, rounds[1..], c, k);
    }
  }

  lemma WaitingRank(inv: Inventory, id: string, rank: Rank)
    requires WaitsAt(inv, id, rank)
    ensures id in inv.items && RankOf(inv.items[id]) == rank
  {
  }

  lemma ProductGrows(a: nat, b: nat, c: nat)
    requires a <= b
    ensures a * c <= b * c
  {
  }

  lemma OneFewer(before: nat, after: nat, c: nat)
    requires c >= 1 && after + c <= before
    ensures after / c + 1 <= before / c
  {
    var d, q := after / c, before / c;
    assert d * c + after % c == after && q * c + before % c == before;
    if q < d + 1 {
      ProductGrows(q, d, c);
      assert false;
    }
  }

  // ----- Why the capacity must exceed the number of rivals -----

  const AGAIN := Outcome("waiting", "", "", "", "")

  /** A cycle without news whose handler asks, whatever it is given, to wait on nothing. */
  function IdleRound(now: int, capacity: int): Round
  {
    Round([], map[], now, capacity, (it: Item, key: string) => AGAIN)
  }

  /** n such cycles, one second apart. */
  function IdleRounds(now: int, capacity: int, n: nat): seq<Round>
    decreases n
  {
    if n == 0 then [] else [IdleRound(now, capacity)] + IdleRounds(now + 1, capacity, n - 1)
  }

  /** An item that is ready, or will be as soon as a cycle looks at it. */
  predicate Pressing(it: Item)
  {
    && it.approved && ApprovalSatisfied(it)
    && (it.phase == Runnable || (it.phase == Waiting && it.dependency == ""))
  }

  ghost predicate PressesOn(inv: Inventory, x: string, rank: Rank)
  {
    && x in inv.items && Pressing(inv.items[x]) && Outranks(RankOf(inv.items[x]), rank)
    && KeyOf(inv.items[x]) !in inv.receipts
  }

  /** The item is ready, and all of the others press on and outrank it. */
  ghost predicate Besieged(inv: Inventory, id: string, others: set<string>, rank: Rank)
  {
    WaitsAt(inv, id, rank) && forall x | x in others :: PressesOn(inv, x, rank)
  }

  lemma PressingPrepare(it: Item, receipts: map<string, Receipt>, now: int)
    requires Pressing(it)
    ensures var p := RecheckItem(RecoverItem(it, receipts, now), map[], now);
            && Pressing(p) && p.phase == Runnable && KeyOf(p) == KeyOf(it) && p.id == it.id
            && RankOf(p).priority == RankOf(it).priority
  {
    hide ActionKey, RetryableReason;
  }

  lemma PressingOutcome(it: Item, now: int)
    requires Pressing(it)
    ensures var p := ApplyOutcome(ClaimItem(it, now), AGAIN, now);
            && Pressing(p) && KeyOf(p) == KeyOf(it) && RankOf(p).priority == RankOf(it).priority && p.id == it.id
  {
    hide ActionKey;
  }

  lemma BesiegedPrepare(inv: Inventory, id: string, others: set<string>, rank: Rank, now: int)
    requires Besieged(inv, id, others, rank)
    ensures var p := Prepare(inv, map[], now);
            && Besieged(p, id, others, rank)
            && (forall x | x in others :: x in p.items && p.items[x].phase == Runnable)
  {
    hide RecoverItem, RecheckItem, ApprovalSatisfied, RankOf, KeyOf, Pressing;
    var p := Prepare(inv, map[], now);
    PrepareKeepsIds(inv, map[], now);
    PrepareMovesBack(inv.items[id], inv.receipts, map[], now);
    forall x | x in others ensures PressesOn(p, x, rank) && p.items[x].phase == Runnable {
      assert PressesOn(inv, x, rank);
      PressingPrepare(inv.items[x], inv.receipts, now);
    }
  }

  /** With no more slots than pressing rivals, the item is not selected. */
  lemma BesiegedIsNotSelected(p: Inventory, id: string, others: set<string>, rank: Rank, capacity: nat)
    requires Besieged(p, id, others, rank) && capacity <= |others|
    requires forall x | x in others :: x in p.items && p.items[x].phase == Runnable
    ensures id !in RunnableItems(p, capacity)
  {
    SelectionIsFirstCandidates(p, capacity);
    var q := RunnableItems(p, capacity);
    if id in q {
      var i :| 0 <= i < |q| && q[i] == id;
      forall x | x in others ensures x in q && x != id {
        assert PressesOn(p, x, rank) && Candidate(p.items[x]);
        assert Before(RankOf(p.items[x]), RankOf(p.items[id]));
        BeforeIsAsymmetric(RankOf(p.items[x]), RankOf(p.items[id]));
      }
      hide Candidate, Before, RankOf, PressesOn, Besieged;
      NoRoomForAll(q, others, id);
    }
  }

  lemma NoRoomForAll(q: seq<string>, others: set<string>, id: string)
    requires id in q && id !in others && forall x | x in others :: x in q
    ensures |q| > |others|
  {
    SelectedSize(q);
    SubsetSize(others + {id}, set x | x in q);
    assert |others + {id}| == |others| + 1;
  }

  lemma SelectedSize(q: seq<string>)
    ensures |set x | x in q| <= |q|
  {
    if q != [] {
      var front := q[..|q| - 1];
      SelectedSize(front);
      assert (set x | x in q) == (set x | x in front) + {q[|q| - 1]};
    }
  }

  lemma BesiegedProcessOne(p: Inventory, x: string, id: string, others: set<string>, rank: Rank, now: int, handler: Handler)
    requires Besieged(p, id, others, rank) && x in p.items && x != id
    requires forall it, key :: handler(it, key) == AGAIN
    ensures Besieged(ProcessOne(p, x, now, handler), id, others, rank)
    ensures ProcessOne(p, x, now, handler).items.Keys == p.items.Keys
  {
    hide KeyOf, ApplyOutcome, RankOf, Pressing, ApprovalSatisfied;
    ProcessOneRetires(p, x, now, handler);
    var one := ProcessOne(p, x, now, handler);
    assert one.receipts == p.receipts;
    forall y | y in others ensures PressesOn(one, y, rank) {
      assert PressesOn(p, y, rank);
      PressingOutcome(p.items[y], now);
    }
  }

  lemma {:induction false} BesiegedProcess(
    p: Inventory, q: seq<string>, id: string, others: set<string>, rank: Rank, now: int, handler: Handler)
    requires Besieged(p, id, others, rank) && id !in q
    requires forall i | 0 <= i < |q| :: q[i] in p.items
    requires forall it, key :: handler(it, key) == AGAIN
    ensures Besieged(ProcessAll(p, q, now, handler), id, others, rank)
    decreases |q|
  {
    hide ProcessOne, Besieged;
    if q != [] {
      BesiegedProcessOne(p, q[0], id, others, rank, now, handler);
      assert forall i | 0 < i < |q| :: q[1..][i - 1] == q[i];
      BesiegedProcess(ProcessOne(p, q[0], now, handler), q[1..], id, others, rank, now, handler);
    }
  }

  lemma BesiegedStaysSo(inv: Inventory, id: string, others: set<string>, rank: Rank, now: int, capacity: nat)
    requires Besieged(inv, id, others, rank) && capacity <= |others|
    ensures var r := IdleRound(now, capacity);
            CanRun(inv, r) && id !in SelectedIn(inv, r) && Besieged(RunRound(inv, r), id, others, rank)
  {
    var r := IdleRound(now, capacity);
    assert ReceiveAll(inv, r.arrivals) == inv;
    var p := Prepare(inv, map[], now);
    BesiegedPrepare(inv, id, others, rank, now);
    BesiegedIsNotSelected(p, id, others, rank, capacity);
    SelectionIsFirstCandidates(p, capacity);
    var q := RunnableItems(p, capacity);
    BesiegedProcess(p, q, id, others, rank, now, r.handler);
    BesiegedFinish(ProcessAll(p, q, now, r.handler), id, others, rank, now);
    hide Prepare, RunnableItems, ProcessAll, FinishCycle;
  }

  lemma BesiegedFinish(inv: Inventory, id: string, others: set<string>, rank: Rank, now: int)
    requires Besieged(inv, id, others, rank)
    ensures Besieged(FinishCycle(inv, now), id, others, rank)
  {
    hide MetricsOf, RankOf, KeyOf, Pressing, Candidate;
    forall x | x in others ensures PressesOn(FinishCycle(inv, now), x, rank) {
      assert PressesOn(inv, x, rank);
    }
  }

  /** As soon as the pressing rivals are as many as the slots there is no bound at all: in
      any such inventory and from any time on, cycles with increasing times can follow
      each other, any number of them, without ever selecting the item. */
  lemma {:induction false} Starvation(
    inv: Inventory, id: string, others: set<string>, rank: Rank, now: int, capacity: nat, n: nat)
    requires Besieged(inv, id, others, rank) && capacity <= |others|
    ensures !EverSelected(inv, id, IdleRounds(now, capacity, n))
    decreases n
  {
    hide Besieged, CanRun, SelectedIn, RunRound;
    if n > 0 {
      BesiegedStaysSo(inv, id, others, rank, now, capacity);
      var rounds := IdleRounds(now, capacity, n);
      assert rounds[0] == IdleRound(now, capacity) && rounds[1..] == IdleRounds(now + 1, capacity, n - 1);
      Starvation(RunRound(inv, rounds[0]), id, others, rank, now + 1, capacity, n - 1);
    }
  }

  /** The times of these cycles increase strictly. */
  lemma {:induction false} IdleRoundsIncrease(now: int, capacity: int, n: nat)
    ensures |IdleRounds(now, capacity, n)| == n
    ensures forall i | 0 <= i < n :: IdleRounds(now, capacity, n)[i].now == now + i
    decreases n
  {
    if n > 0 {
      IdleRoundsIncrease(now + 1, capacity, n - 1);
    }
  }

  // ----- Such inventories exist, for every number of rivals -----

  function Rival(i: nat): Item
  {
    MakeItem(WorkInput(Text.Decimal(i), "run", 1, true, "", false, "", false), 0)
  }

  function Low(): Item
  {
    MakeItem(WorkInput("low", "run", 100, true, "", false, "", false), 0)
  }

  function SiegeItems(k: nat): map<string, Item>
  {
    if k == 0 then map["low" := Low()] else SiegeItems(k - 1)[Text.Decimal(k - 1) := Rival(k - 1)]
  }

  function SiegeNames(k: nat): set<string>
  {
    if k == 0 then {} else SiegeNames(k - 1) + {Text.Decimal(k - 1)}
  }

  lemma {:induction false} SiegeNamesAreDistinct(k: nat)
    ensures |SiegeNames(k)| == k && "low" !in SiegeNames(k)
    ensures forall i: nat | i >= k :: Text.Decimal(i) !in SiegeNames(k)
  {
    hide Text.Decimal;
    if k > 0 {
      SiegeNamesAreDistinct(k - 1);
      assert "low"[0] == 'l' && "low"[0] in "low";
      forall i: nat | i >= k ensures Text.Decimal(i) != Text.Decimal(k - 1) {
        if Text.Decimal(i) == Text.Decimal(k - 1) {
          Text.DecimalIsInjective(i, k - 1);
        }
      }
    }
  }

  lemma RivalPresses(i: nat)
    ensures Rival(i).id == Text.Decimal(i) && Pressing(Rival(i)) && Outranks(RankOf(Rival(i)), RankOf(Low()))
    ensures Low().id == "low" && Candidate(Low())
  {
    hide Text.Decimal;
  }

  lemma OneMoreRival(inv: Inventory, id: string, others: set<string>, rank: Rank, x: string, it: Item)
    requires Besieged(inv, id, others, rank) && inv.receipts == map[] && x != id && x !in others
    requires it.id == x && Pressing(it) && Outranks(RankOf(it), rank)
    ensures Besieged(inv.(items := inv.items[x := it]), id, others + {x}, rank)
  {
    hide KeyOf, RankOf, Candidate, Pressing, Outranks;
    var more := inv.(items := inv.items[x := it]);
    forall y | y in others + {x} ensures PressesOn(more, y, rank) {
      assert y in others ==> PressesOn(inv, y, rank);
    }
  }

  lemma NoSiege()
    ensures Besieged(EmptyInventory(0).(items := map["low" := Low()]), "low", {}, RankOf(Low()))
  {
    RivalPresses(0);
    hide Low, RankOf, Candidate;
  }

  lemma {:induction false} SiegeIsOne(k: nat)
    ensures Besieged(EmptyInventory(0).(items := SiegeItems(k)), "low", SiegeNames(k), RankOf(Low()))
  {
    hide Text.Decimal, Rival, Low, KeyOf, RankOf, Candidate, Pressing, Besieged;
    if k == 0 {
      NoSiege();
    } else {
      RivalPresses(k - 1);
      SiegeIsOne(k - 1);
      SiegeNamesAreDistinct(k);
      SiegeNamesAreDistinct(k - 1);
      assert Text.Decimal(k - 1) in SiegeNames(k);
      var before := EmptyInventory(0).(items := SiegeItems(k - 1));
      OneMoreRival(before, "low", SiegeNames(k - 1), RankOf(Low()), Text.Decimal(k - 1), Rival(k - 1));
    }
  }

  /** For every number of rivals there is an inventory with a ready item and that many. */
  lemma BesiegedExists(k: nat)
    ensures exists inv, others, rank :: Besieged(inv, "low", others, rank) && |others| == k
  {
    SiegeNamesAreDistinct(k);
    SiegeIsOne(k);
    hide Besieged, SiegeNames, SiegeItems;
    var inv := EmptyInventory(0).(items := SiegeItems(k));
    assert Besieged(inv, "low", SiegeNames(k), RankOf(Low())) && |SiegeNames(k)| == k;
  }
}
