/** Where the engine's behaviour stops short of what its names suggest, and exactly
    when: key identity, exhausted retries, and decisions lost to a crash. */
module Limits {
  import opened Wrappers
  import opened WorkItems
  import opened Runs
  import opened Histories
  import opened Cycles
  import opened Fairness
  import Text

  // ----- When two actions share a key -----

  predicate HasBar(s: string)
  {
    '|' in s
  }

  lemma PrefixUpToBar(a: string, x: string, b: string, y: string)
    requires a + "|" + x == b + "|" + y && !HasBar(a) && !HasBar(b)
    ensures a == b && x == y
  {
    var s := a + "|" + x;
    assert s == b + "|" + y;
    assert s[|a|] == '|' && s[|b|] == '|';
    assert forall i | 0 <= i < |a| :: s[i] == a[i] && s[i] != '|';
    assert forall i | 0 <= i < |b| :: s[i] == b[i] && s[i] != '|';
    assert |a| == |b|;
    assert s[..|a|] == a && s[..|b|] == b;
    assert s[|a| + 1..] == x && s[|b| + 1..] == y;
  }

  lemma SuffixFromBar(x: string, a: string, y: string, b: string)
    requires x + "|" + a == y + "|" + b && !HasBar(a) && !HasBar(b)
    ensures a == b && x == y
  {
    var s := x + "|" + a;
    assert s == y + "|" + b;
    assert s[|x|] == '|' && s[|y|] == '|';
    assert forall i | |x| < i < |s| :: s[i] == a[i - |x| - 1] && s[i] != '|';
    assert forall i | |y| < i < |s| :: s[i] == b[i - |y| - 1] && s[i] != '|';
    assert |x| == |y|;
    assert s[..|x|] == x && s[..|y|] == y;
    assert s[|x| + 1..] == a && s[|y| + 1..] == b;
  }

  lemma KeyParts(id: string, action: string, generation: nat)
    ensures ActionKey(id, action, generation) == (id + "|" + action) + "|" + Text.Decimal(generation)
    ensures ActionKey(id, action, generation) == id + "|" + (action + "|" + Text.Decimal(generation))
    ensures !HasBar(Text.Decimal(generation))
  {
  }

  /** Among ids without a bar, equal keys mean the same id, action and generation. */
  lemma KeysAreUniqueWithoutBars(id: string, action: string, g: nat, id': string, action': string, g': nat)
    requires !HasBar(id) && !HasBar(id')
    requires ActionKey(id, action, g) == ActionKey(id', action', g')
    ensures id == id' && action == action' && g == g'
  {
    KeyParts(id, action, g);
    KeyParts(id', action', g');
    hide ActionKey;
    PrefixUpToBar(id, action + "|" + Text.Decimal(g), id', action' + "|" + Text.Decimal(g'));
    SuffixFromBar(action, Text.Decimal(g), action', Text.Decimal(g'));
    Text.DecimalIsInjective(g, g');
  }

  /** Some other admissible pair of id and action has the same key. */
  ghost predicate KeyIsShared(id: string, action: string, g: nat)
  {
    exists id', action' :: id' != "" && action' != "" && id' != id && ActionKey(id', action', g) == ActionKey(id, action, g)
  }

  /** Text can be cut at a bar that is neither its first nor its last character. */
  predicate InnerBarBesides(s: string, at: nat)
  {
    exists i | 0 < i < |s| - 1 :: i != at && s[i] == '|'
  }

  lemma BarMakesKeyShared(id: string, action: string, g: nat)
    requires InnerBarBesides(id + "|" + action, |id|)
    ensures KeyIsShared(id, action, g)
  {
    var s := id + "|" + action;
    var i :| 0 < i < |s| - 1 && i != |id| && s[i] == '|';
    var id', action' := s[..i], s[i + 1..];
    assert id' + "|" + action' == s;
    KeyParts(id, action, g);
    KeyParts(id', action', g);
    assert |id'| != |id|;
    assert ActionKey(id', action', g) == ActionKey(id, action, g);
  }

  lemma SharedKeyHasBar(id: string, action: string, g: nat)
    requires KeyIsShared(id, action, g)
    ensures InnerBarBesides(id + "|" + action, |id|)
  {
    var id', action' :| id' != "" && action' != "" && id' != id && ActionKey(id', action', g) == ActionKey(id, action, g);
    var s, t := id + "|" + action, id' + "|" + action';
    KeyParts(id, action, g);
    KeyParts(id', action', g);
    SuffixFromBar(s, Text.Decimal(g), t, Text.Decimal(g));
    hide ActionKey;
    assert t == s && t[|id'|] == '|';
    assert s[..|id|] == id && t[..|id'|] == id';
    assert 0 < |id'| < |s| - 1 && |id'| != |id| && s[|id'|] == '|';
  }

  /** The key of an item is shared with another id exactly when id and action joined
      contain a further bar with text on both sides of it. */
  lemma KeyIsSharedExactly(id: string, action: string, g: nat)
    ensures KeyIsShared(id, action, g) <==> InnerBarBesides(id + "|" + action, |id|)
  {
    if KeyIsShared(id, action, g) { SharedKeyHasBar(id, action, g); }
    if InnerBarBesides(id + "|" + action, |id|) { BarMakesKeyShared(id, action, g); }
    hide KeyIsShared, InnerBarBesides;
  }

  // ----- When an exhausted retry is released again -----

  function Exhausted(): string { "retry_exhausted: " }

  /** No occurrence of a term with this head can begin inside p. */
  predicate CannotBeginIn(p: string, term: string)
  {
    |term| >= 3 && forall i | 0 <= i < |p| :: Differs(p, term, i)
  }

  predicate Differs(p: string, term: string, i: nat)
    requires i < |p| && |term| >= 3
  {
    || p[i] != term[0]
    || (i + 1 < |p| && p[i + 1] != term[1])
    || (i + 2 < |p| && p[i + 2] != term[2])
  }

  lemma PrefixAddsNoOccurrence(p: string, text: string, term: string)
    requires CannotBeginIn(p, term)
    ensures Text.Contains(p + text, term) <==> Text.Contains(text, term)
  {
    var s := p + text;
    if Text.Contains(text, term) {
      var i :| 0 <= i <= |text| && Text.OccursAt(text, term, i);
      assert s[|p| + i..|p| + i + |term|] == text[i..i + |term|];
      assert Text.OccursAt(s, term, |p| + i);
    }
    if Text.Contains(s, term) {
      var i :| 0 <= i <= |s| && Text.OccursAt(s, term, i);
      LettersOfOccurrence(p, text, term, i);
      assert i < |p| ==> Differs(p, term, i);
      assert text[i - |p|..i - |p| + |term|] == s[i..i + |term|];
      assert Text.OccursAt(text, term, i - |p|);
    }
  }

  lemma LettersOfOccurrence(p: string, text: string, term: string, i: nat)
    requires |term| >= 3 && Text.OccursAt(p + text, term, i)
    ensures i < |p| ==> p[i] == term[0]
    ensures i + 1 < |p| ==> p[i + 1] == term[1]
    ensures i + 2 < |p| ==> p[i + 2] == term[2]
  {
    var s := p + text;
    var cut := s[i..i + |term|];
    assert term[0] == cut[0] == s[i];
    assert term[1] == cut[1] == s[i + 1];
    assert term[2] == cut[2] == s[i + 2];
  }

  lemma PrefixAddsNone(p: string, text: string, terms: seq<string>)
    requires forall t | t in terms :: CannotBeginIn(p, t)
    ensures Text.ContainsAny(p + text, terms) <==> Text.ContainsAny(text, terms)
  {
    forall t | t in terms ensures Text.Contains(p + text, t) <==> Text.Contains(text, t) {
      PrefixAddsNoOccurrence(p, text, t);
    }
  }

  /** The three-letter windows of the marker. */
  function MarkerWindows(): set<(char, char, char)>
  {
    {
      ('r', 'e', 't'), ('e', 't', 'r'), ('t', 'r', 'y'), ('r', 'y', '_'), ('y', '_', 'e'),
      ('_', 'e', 'x'), ('e', 'x', 'h'), ('x', 'h', 'a'), ('h', 'a', 'u'), ('a', 'u', 's'),
      ('u', 's', 't'), ('s', 't', 'e'), ('t', 'e', 'd'), ('e', 'd', ':'), ('d', ':', ' ')
    }
  }

  ghost predicate HasMarkerWindows(p: string)
  {
    && |p| == 17 && p[15] == ':' && p[16] == ' '
    && forall i | 0 <= i < 15 :: (p[i], p[i + 1], p[i + 2]) in MarkerWindows()
  }

  lemma MarkerHasItsWindows()
    ensures HasMarkerWindows(Exhausted())
  {
    var p := Exhausted();
    assert p[0] == 'r' && p[1] == 'e' && p[2] == 't';
    assert p[3] == 'r' && p[4] == 'y' && p[5] == '_';
    assert p[6] == 'e' && p[7] == 'x' && p[8] == 'h';
    assert p[9] == 'a' && p[10] == 'u' && p[11] == 's';
    assert p[12] == 't' && p[13] == 'e' && p[14] == 'd';
    forall i | 0 <= i < 15 ensures (p[i], p[i + 1], p[i + 2]) in MarkerWindows() {
      var w := (p[i], p[i + 1], p[i + 2]);
      if i < 5 {
        assert w == ('r', 'e', 't') || w == ('e', 't', 'r') || w == ('t', 'r', 'y') || w == ('r', 'y', '_') || w == ('y', '_', 'e');
      } else if i < 10 {
        assert w == ('_', 'e', 'x') || w == ('e', 'x', 'h') || w == ('x', 'h', 'a') || w == ('h', 'a', 'u') || w == ('a', 'u', 's');
      } else {
        assert w == ('u', 's', 't') || w == ('s', 't', 'e') || w == ('t', 'e', 'd') || w == ('e', 'd', ':') || w == ('d', ':', ' ');
      }
    }
  }

  lemma OtherHeadsCannotBegin(p: string, term: string, a: char, b: char, c: char)
    requires HasMarkerWindows(p)
    requires |term| >= 3 && term[0] == a && term[1] == b && term[2] == c
    requires a != ':' && a != ' ' && (a, b, c) !in MarkerWindows()
    ensures CannotBeginIn(p, term)
  {
    hide MarkerWindows;
    forall i | 0 <= i < |p|
      ensures p[i] != term[0] || (i + 1 < |p| && p[i + 1] != term[1]) || (i + 2 < |p| && p[i + 2] != term[2])
    {
      if i < 15 {
        assert (p[i], p[i + 1], p[i + 2]) in MarkerWindows();
      }
    }
  }

  lemma TransportTermsAreClear()
    ensures forall t | t in ["http transport", "connectortransporterror", "provider timeout", "connection reset"] ::
              CannotBeginIn(Exhausted(), t)
  {
    MarkerHasItsWindows();
    hide Exhausted, HasMarkerWindows, CannotBeginIn;
    OtherHeadsCannotBegin(Exhausted(), "http transport", 'h', 't', 't');
    OtherHeadsCannotBegin(Exhausted(), "connectortransporterror", 'c', 'o', 'n');
    OtherHeadsCannotBegin(Exhausted(), "provider timeout", 'p', 'r', 'o');
    OtherHeadsCannotBegin(Exhausted(), "connection reset", 'c', 'o', 'n');
  }

  lemma RateTermsAreClear()
    ensures forall t | t in ["rate limit", "429"] ::
              CannotBeginIn(Exhausted(), t)
  {
    MarkerHasItsWindows();
    hide Exhausted, HasMarkerWindows, CannotBeginIn;
    OtherHeadsCannotBegin(Exhausted(), "rate limit", 'r', 'a', 't');
    OtherHeadsCannotBegin(Exhausted(), "429", '4', '2', '9');
  }

  lemma BillingTermsAreClear()
    ensures forall t | t in ["insufficient_quota", "credit_balance_exhausted"] ::
              CannotBeginIn(Exhausted(), t)
  {
    MarkerHasItsWindows();
    hide Exhausted, HasMarkerWindows, CannotBeginIn;
    OtherHeadsCannotBegin(Exhausted(), "insufficient_quota", 'i', 'n', 's');
    OtherHeadsCannotBegin(Exhausted(), "credit_balance_exhausted", 'c', 'r', 'e');
  }

  lemma CredentialTermsAreClear()
    ensures forall t | t in ["credential", "api details", "tenant permission", "license required"] ::
              CannotBeginIn(Exhausted(), t)
  {
    MarkerHasItsWindows();
    hide Exhausted, HasMarkerWindows, CannotBeginIn;
    OtherHeadsCannotBegin(Exhausted(), "credential", 'c', 'r', 'e');
    OtherHeadsCannotBegin(Exhausted(), "api details", 'a', 'p', 'i');
    OtherHeadsCannotBegin(Exhausted(), "tenant permission", 't', 'e', 'n');
    OtherHeadsCannotBegin(Exhausted(), "license required", 'l', 'i', 'c');
  }

  lemma ValidationTermsAreClear()
    ensures forall t | t in ["regression test", "ci failure", "test failed", "validation failed"] ::
              CannotBeginIn(Exhausted(), t)
  {
    MarkerHasItsWindows();
    hide Exhausted, HasMarkerWindows, CannotBeginIn;
    OtherHeadsCannotBegin(Exhausted(), "regression test", 'r', 'e', 'g');
    OtherHeadsCannotBegin(Exhausted(), "ci failure", 'c', 'i', ' ');
    OtherHeadsCannotBegin(Exhausted(), "test failed", 't', 'e', 's');
    OtherHeadsCannotBegin(Exhausted(), "validation failed", 'v', 'a', 'l');
  }

  lemma OwnerTermsAreClear()
    ensures forall t | t in ["owner approval", "explicit approval", "authorization required"] ::
              CannotBeginIn(Exhausted(), t)
  {
    MarkerHasItsWindows();
    hide Exhausted, HasMarkerWindows, CannotBeginIn;
    OtherHeadsCannotBegin(Exhausted(), "owner approval", 'o', 'w', 'n');
    OtherHeadsCannotBegin(Exhausted(), "explicit approval", 'e', 'x', 'p');
    OtherHeadsCannotBegin(Exhausted(), "authorization required", 'a', 'u', 't');
  }

  /** Marking a reason as exhausted does not change how it classifies. */
  lemma ExhaustedReasonClassifiesAlike(reason: string)
    ensures ClassifyReason(Exhausted() + reason) == ClassifyReason(reason)
  {
    Text.LowerOfConcat(Exhausted(), reason);
    assert Text.Lower(Exhausted()) == Exhausted();
    var text := Text.Lower(reason);
    assert Text.Lower(Exhausted() + reason) == Exhausted() + text;
    TransportTermsAreClear();
    RateTermsAreClear();
    BillingTermsAreClear();
    CredentialTermsAreClear();
    ValidationTermsAreClear();
    OwnerTermsAreClear();
    hide CannotBeginIn;
    PrefixAddsNone(Exhausted(), text, ["http transport", "connectortransporterror", "provider timeout", "connection reset"]);
    PrefixAddsNone(Exhausted(), text, ["rate limit", "429"]);
    PrefixAddsNone(Exhausted(), text, ["insufficient_quota", "credit_balance_exhausted"]);
    PrefixAddsNone(Exhausted(), text, ["credential", "api details", "tenant permission", "license required"]);
    PrefixAddsNone(Exhausted(), text, ["regression test", "ci failure", "test failed", "validation failed"]);
    PrefixAddsNone(Exhausted(), text, ["owner approval", "explicit approval", "authorization required"]);
    hide Text.ContainsAny, Text.Lower;
  }

  predicate AsksForRetry(o: Outcome)
  {
    o.status == "retry"
    || (o.status !in {"complete", "waiting"} && FirstNonEmpty(o.retryClass, ClassifyReason(o.reason)) in RETRYABLE)
  }

  function FailureReason(o: Outcome): string
  {
    FirstNonEmpty(o.reason, FirstNonEmpty(o.retryClass, ClassifyReason(o.reason)))
  }

  lemma ExhaustedIsBlocked(it: Item, o: Outcome, now: int)
    requires it.attempts >= EffectiveMaxAttempts(it)
    ensures ApplyOutcome(it, o, now).phase != RetryWait
    ensures AsksForRetry(o) ==>
              && ApplyOutcome(it, o, now).phase == Blocked
              && ApplyOutcome(it, o, now).reason == Exhausted() + FailureReason(o)
  {
    hide ClassifyReason, BackoffSeconds;
  }

  /** An item at its attempt limit is never scheduled for another retry; on a retry
      outcome it is blocked, and the next re-evaluation releases it exactly when the
      reason it failed with is retryable. */
  lemma ExhaustedIsReleasedExactly(it: Item, o: Outcome, now: int, facts: map<string, bool>, later: int)
    requires it.attempts >= EffectiveMaxAttempts(it)
    ensures ApplyOutcome(it, o, now).phase != RetryWait
    ensures AsksForRetry(o) ==>
              && ApplyOutcome(it, o, now).phase == Blocked
              && (RecheckItem(ApplyOutcome(it, o, now), facts, later).phase == Runnable
                  <==> RetryableReason(FailureReason(o)))
  {
    hide ApplyOutcome, AsksForRetry, ClassifyReason, DependencySatisfied, FailureReason, Exhausted;
    ExhaustedIsBlocked(it, o, now);
    ExhaustedReasonClassifiesAlike(FailureReason(o));
  }

  // ----- Following concrete runs -----

  /** A cycle that selects nothing, up to its last write. */
  lemma EmptyCycleStep(w: World, now: int)
    requires w.pc == Ready([], now)
    ensures var n := Next(Next(w, Finish), Persist);
            n.pc.Down? && n.disk.items == w.vol.items && n.disk.receipts == w.vol.receipts
  {
    hide MetricsOf;
  }

  lemma NothingSelected(p: Inventory)
    ensures RunnableItems(p, 0) == []
  {
  }

  /** Preparation leaves a runnable item alone. */
  lemma PrepareKeepsRunnable(inv: Inventory, facts: map<string, bool>, now: int, id: string)
    requires id in inv.items && inv.items[id].phase == Runnable
    ensures var p := Prepare(inv, facts, now);
            p.items.Keys == inv.items.Keys && p.receipts == inv.receipts && p.items[id] == inv.items[id]
  {
    PrepareMovesBack(inv.items[id], inv.receipts, facts, now);
    hide RecoverItem, RecheckItem;
  }

  // ----- Attempts have no bound -----

  const RESET := Outcome("retry", "connection reset", "", "", "")

  ghost predicate Flaky(it: Item, now: int)
  {
    && it.id == "a" && it.approved && !it.approvalRequired && it.maxAttempts == 3
    && (|| it.phase == Runnable
        || (it.phase == RetryWait && it.nextAttemptAt.Some? && it.nextAttemptAt.value <= now)
        || (it.phase == Blocked && RetryableReason(it.reason)))
  }

  ghost predicate FlakyInventory(inv: Inventory, now: int)
  {
    inv.receipts == map[] && inv.items.Keys == {"a"} && Flaky(inv.items["a"], now)
  }

  lemma ResetIsRetryable()
    ensures RetryableReason("connection reset") && RetryableReason("retry_exhausted: " + "connection reset")
  {
    var r := "connection reset";
    assert Text.Lower(r) == r;
    assert Text.OccursAt(r, r, 0);
    assert Text.Contains(r, r);
    assert Text.ContainsAny(r, ["http transport", "connectortransporterror", "provider timeout", r]) by {
      assert r in ["http transport", "connectortransporterror", "provider timeout", r];
    }
    ExhaustedReasonClassifiesAlike(r);
  }

  lemma FlakyPrepare(it: Item, now: int)
    requires Flaky(it, now)
    ensures var p := RecheckItem(RecoverItem(it, map[], now), map[], now);
            Flaky(p, now) && p.phase == Runnable && p.attempts == it.attempts
  {
    hide KeyOf, RetryableReason;
  }

  lemma FlakyOutcome(it: Item, now: int)
    requires Flaky(it, now)
    ensures var p := ApplyOutcome(ClaimItem(it, now), RESET, now);
            Flaky(p, now + 120) && p.attempts == it.attempts + 1
  {
    ResetIsRetryable();
    hide ClassifyReason, RetryableReason, Pow2;
  }

  lemma FlakySelection(p: Inventory, now: int)
    requires FlakyInventory(p, now) && p.items["a"].phase == Runnable && ActiveIds(p) == {}
    ensures RunnableItems(p, 1) == ["a"]
  {
    SelectionIsFirstCandidates(p, 1);
    assert Candidate(p.items["a"]);
    hide RunnableItems, Candidate;
  }

  lemma FlakyCycle(inv: Inventory, now: int, handler: Handler)
    requires FlakyInventory(inv, now) && forall it, key :: handler(it, key) == RESET
    ensures IdsMatch(inv)
    ensures var r := RunCycle(inv, map[], now, 1, handler);
            FlakyInventory(r, now + 120) && Attempts(r, "a") == Attempts(inv, "a") + 1
  {
    hide KeyOf, ApplyOutcome, MetricsOf, RecoverItem, RecheckItem, Flaky, RunnableItems;
    assert inv.items["a"].id == "a" by { FlakyId(inv.items["a"], now); }
    var p := Prepare(inv, map[], now);
    PreparedHasNoActive(inv, map[], now);
    FlakyPrepare(inv.items["a"], now);
    FlakySelection(p, now);
    FlakyOutcome(p.items["a"], now);
    assert ["a"][1..] == [];
    assert ProcessAll(p, ["a"], now, handler) == ProcessOne(p, "a", now, handler);
  }

  lemma FlakyId(it: Item, now: int)
    requires Flaky(it, now)
    ensures it.id == "a"
  {
  }

  /** The labels of n uninterrupted cycles, 120 seconds apart, over one item whose
      handler keeps answering that the connection was reset. */
  lemma {:induction false} AttemptsHaveNoBound(n: nat)
    ensures exists ls :: FlakyWorld(Exec(Init(0), ls), 120 * n) && Attempts(Exec(Init(0), ls).disk, "a") == n
  {
    if n == 0 {
      var work := WorkInput("a", "run", 1, true, "", false, "", false);
      FlakyStart(work);
    } else {
      AttemptsHaveNoBound(n - 1);
      var ls :| FlakyWorld(Exec(Init(0), ls), 120 * (n - 1)) && Attempts(Exec(Init(0), ls).disk, "a") == n - 1;
      FlakyRun(ls, 120 * (n - 1));
    }
  }

  ghost predicate FlakyWorld(w: World, now: int)
  {
    w.pc.Down? && FlakyInventory(w.disk, now)
  }

  lemma FlakyStart(work: WorkInput)
    requires work == WorkInput("a", "run", 1, true, "", false, "", false)
    ensures exists ls :: FlakyWorld(Exec(Init(0), ls), 0) && Attempts(Exec(Init(0), ls).disk, "a") == 0
  {
    var ls := [Start, Admit(work, 0), BeginCycle(map[], 0, 0), Finish, Persist];
    ExecFive(Init(0), Start, Admit(work, 0), BeginCycle(map[], 0, 0), Finish, Persist);
    hide Next, Exec, Prepare, RunnableItems;
    var w1 := Next(Init(0), Start);
    StartStep(Init(0));
    AdmitStep(w1, work, 0);
    var w2 := Next(w1, Admit(work, 0));
    var it := MakeItem(work, 0);
    assert w2.vol.items == map["a" := it];
    BeginStep(w2, map[], 0, 0);
    var w3 := Next(w2, BeginCycle(map[], 0, 0));
    NothingSelected(w3.vol);
    PrepareKeepsRunnable(w2.vol, map[], 0, "a");
    EmptyCycleStep(w3, 0);
    assert FlakyWorld(Exec(Init(0), ls), 0);
  }

  lemma FlakyRun(ls: seq<Label>, now: int)
    requires FlakyWorld(Exec(Init(0), ls), now)
    ensures exists ls' :: FlakyWorld(Exec(Init(0), ls'), now + 120)
                          && Attempts(Exec(Init(0), ls').disk, "a") == Attempts(Exec(Init(0), ls).disk, "a") + 1
  {
    hide FlakyInventory, RunCycle, CycleLabels, Attempts, IdsMatch, Exec;
    var w := Exec(Init(0), ls);
    var handler := (it: Item, key: string) => RESET;
    FlakyCycle(w.disk, now, handler);
    ExecSnoc(Init(0), ls, Start);
    var loaded := Next(w, Start);
    var cycle := CycleLabels(loaded.vol, map[], now, 1, handler);
    CycleIsRun(loaded, map[], now, 1, handler);
    ExecConcat(Init(0), ls + [Start], cycle);
    ExecSnoc(Init(0), ls + [Start] + cycle, Persist);
    var ls' := ls + [Start] + cycle + [Persist];
    assert Exec(Init(0), ls').disk == RunCycle(w.disk, map[], now, 1, handler);
    assert FlakyWorld(Exec(Init(0), ls'), now + 120);
  }

  // ----- A decision can be lost -----

  function Decide(decision: string): ApprovalInput
  {
    ApprovalInput("a", "REQ", decision, "person", "tenant", "receipt", true, "teams")
  }

  lemma DecisionsAreClean()
    ensures ApprovalOf(Decide("approve")).decision == "approve"
    ensures ApprovalOf(Decide("deny")).decision == "deny"
  {
    assert Text.Lower("approve") == "approve" && Text.Lower("deny") == "deny";
    assert Text.Strip("approve") == "approve" && Text.Strip("deny") == "deny";
  }

  function ReleaseWork(): WorkInput
  {
    WorkInput("a", "release", 1, true, "", true, "REQ", false)
  }

  ghost predicate ApprovedOnDisk(w: World)
  {
    && w.pc.Down? && w.disk.receipts == map[] && w.disk.items.Keys == {"a"}
    && var it := w.disk.items["a"];
       && it.id == "a" && it.phase == Runnable && it.approved && it.approvalRequired && it.approvalRequestId == "REQ"
       && it.approval == Some(ApprovalOf(Decide("approve")))
  }

  lemma ApproveAndStop()
    ensures exists ls :: ApprovedOnDisk(Exec(Init(0), ls))
  {
    var work, yes := ReleaseWork(), Decide("approve");
    var ls := [Start, Admit(work, 0), Approve(yes), BeginCycle(map[], 0, 0), Finish];
    ExecFive(Init(0), Start, Admit(work, 0), Approve(yes), BeginCycle(map[], 0, 0), Finish);
    ExecSnoc(Init(0), ls, Persist);
    DecisionsAreClean();
    hide Next, Exec, Prepare, RunnableItems, Text.Strip, Text.Lower;
    var w1 := Next(Init(0), Start);
    StartStep(Init(0));
    AdmitStep(w1, work, 0);
    var w2 := Next(w1, Admit(work, 0));
    var it := MakeItem(work, 0);
    assert w2.vol.items == map["a" := it];
    ApproveStep(w2, yes);
    var w3 := Next(w2, Approve(yes));
    var approved := it.(approval := Some(ApprovalOf(yes)));
    assert w3.vol.items == map["a" := approved];
    BeginStep(w3, map[], 0, 0);
    var w4 := Next(w3, BeginCycle(map[], 0, 0));
    NothingSelected(w4.vol);
    PrepareKeepsRunnable(w3.vol, map[], 0, "a");
    EmptyCycleStep(w4, 0);
    assert ApprovedOnDisk(Exec(Init(0), ls + [Persist]));
  }

  lemma ApprovedSelection(p: Inventory)
    requires IdsMatch(p) && p.items.Keys == {"a"} && Candidate(p.items["a"]) && ActiveIds(p) == {}
    ensures RunnableItems(p, 1) == ["a"]
  {
    SelectionIsFirstCandidates(p, 1);
    hide RunnableItems, Candidate;
  }

  /** A denial that was recorded, and then lost to a crash before the next checkpoint,
      does not stop the call: in some run the last decision recorded for the called
      item is a denial. */
  lemma DenialCanBeLost()
    ensures exists ls, k ::
              var t := Exec(Init(0), ls).trace;
              && 0 <= k < |t| && t[k].Invoked? && t[k].item.approvalRequired
              && Latest(t[..k], t[k].item.id).Some? && Latest(t[..k], t[k].item.id).value.decision == "deny"
  {
    ApproveAndStop();
    var prelude :| ApprovedOnDisk(Exec(Init(0), prelude));
    hide Exec, Next, ApprovedOnDisk, Latest, DeniedButReady;
    var w := Exec(Init(0), prelude);
    var denied := [Start, Approve(Decide("deny")), Crash, Start, BeginCycle(map[], 1, 1)];
    ExecFive(w, Start, Approve(Decide("deny")), Crash, Start, BeginCycle(map[], 1, 1));
    ExecConcat(Init(0), prelude, denied);
    var all := prelude + denied;
    ExecSnoc(Init(0), all, Claim);
    ExecSnoc(Init(0), all + [Claim], CheckpointClaim);
    ExecSnoc(Init(0), all + [Claim] + [CheckpointClaim], Invoke);
    var ready := Exec(Init(0), all);
    DenialIsLost(w, ready);
    CallAfterDenial(ready);
    var ls := all + [Claim] + [CheckpointClaim] + [Invoke];
    LostDenialWitness(ls, |ready.trace| + 1);
  }

  lemma LostDenialWitness(ls: seq<Label>, k: nat)
    requires var t := Exec(Init(0), ls).trace;
             && k < |t| && t[k].Invoked? && t[k].item.approvalRequired && t[k].item.id == "a"
             && Latest(t[..k], "a") == Some(ApprovalOf(Decide("deny")))
    ensures exists ls, k ::
              var t := Exec(Init(0), ls).trace;
              && 0 <= k < |t| && t[k].Invoked? && t[k].item.approvalRequired
              && Latest(t[..k], t[k].item.id).Some? && Latest(t[..k], t[k].item.id).value.decision == "deny"
  {
    DecisionsAreClean();
    hide Exec, Latest, ApprovalOf;
    var t := Exec(Init(0), ls).trace;
    assert Latest(t[..k], t[k].item.id).value.decision == "deny";
  }

  ghost predicate DeniedButReady(w: World)
  {
    && w.pc == Ready(["a"], 1) && w.vol.receipts == map[] && "a" in w.vol.items
    && w.vol.items["a"].id == "a" && w.vol.items["a"].approvalRequired
    && Latest(w.trace, "a") == Some(ApprovalOf(Decide("deny")))
  }

  lemma DenialIsLost(w: World, n: World)
    requires ApprovedOnDisk(w)
    requires n == Next(Next(Next(Next(Next(w, Start), Approve(Decide("deny"))), Crash), Start), BeginCycle(map[], 1, 1))
    ensures DeniedButReady(n)
  {
    DecisionsAreClean();
    hide Next, Prepare, RunnableItems, Text.Strip, Text.Lower, ActiveIds;
    var no := Decide("deny");
    var e := Recorded("a", ApprovalOf(no));
    StartStep(w);
    var w1 := Next(w, Start);
    ApproveStep(w1, no);
    var w2 := Next(w1, Approve(no));
    CrashStep(w2);
    var w3 := Next(w2, Crash);
    StartStep(w3);
    var w4 := Next(w3, Start);
    BeginStep(w4, map[], 1, 1);
    var p := Prepare(w.disk, map[], 1);
    PreparedHasNoActive(w.disk, map[], 1);
    PrepareKeepsRunnable(w.disk, map[], 1, "a");
    ApprovedSelection(p);
    LatestAfter(w.trace, e, "a");
    LatestAfter(w2.trace, Crashed, "a");
    LatestAfter(w3.trace, CycleBegan(map[], 1, 1, p), "a");
  }

  lemma LatestAfter(t: seq<Event>, e: Event, id: string)
    ensures Latest(t + [e], id) == if e.Recorded? && e.itemId == id then Some(e.approval) else Latest(t, id)
  {
    AppendParts(t, e);
  }

  lemma CallAfterDenial(w: World)
    requires DeniedButReady(w)
    ensures var t := Next(Next(Next(w, Claim), CheckpointClaim), Invoke).trace;
            var k := |w.trace| + 1;
            && |t| == k + 1 && t[k].Invoked? && t[k].item.approvalRequired && t[k].item.id == "a"
            && Latest(t[..k], "a") == Some(ApprovalOf(Decide("deny")))
  {
    hide KeyOf, Latest, ApprovalOf;
    LatestAfter(w.trace, ClaimSaved("a"), "a");
    var t := Next(Next(Next(w, Claim), CheckpointClaim), Invoke).trace;
    assert t[..|w.trace| + 1] == w.trace + [ClaimSaved("a")];
  }
}
