/** Correlation of detector symptoms into incidents, the authority each incident
    gets, and the recurrence memory over ticks (tools/issue_resolution_engine.py). */
module Incidents {
  import opened Wrappers
  import Text

  datatype Family =
    | ProductionConvergence
    | RuntimeHealth
    | ProviderHealth
    | TicketAdmission
    | OperationalOutcome
    | ServiceHealth
    | HostStorageCapacity
    | UnknownFamily

  // ----- From a symptom to a family -----

  function FailureFamily(failure: string): Family
  {
    var value := Text.Lower(Text.Strip(failure));
    if Text.HasPrefix(value, "production_convergence_") then ProductionConvergence
    else if Text.HasPrefix(value, "container_down:") || Text.HasPrefix(value, "mcp_status_") then RuntimeHealth
    else if Text.HasPrefix(value, "provider_canary_") then ProviderHealth
    else if Text.HasPrefix(value, "production_health_") then ProductionConvergence
    else if Text.HasPrefix(value, "health_metric:jason_provider_canary_health") then ProviderHealth
    else if Text.HasPrefix(value, "host_storage_") then HostStorageCapacity
    else if Text.HasPrefix(value, "autonomy_") then TicketAdmission
    else if Text.HasPrefix(value, "outcome_contract_") || Text.HasPrefix(value, "workflow_outcome_stale:") then
      OperationalOutcome
    else if Text.HasPrefix(value, "failed_user_unit:") || Text.HasPrefix(value, "failed_system_unit:")
            || Text.HasPrefix(value, "systemd_unit_failed:") then ServiceHealth
    else if Text.HasPrefix(value, "health_metric:jason_production_") then ProductionConvergence
    else if Text.HasPrefix(value, "health_metric:jason_mcp_") then RuntimeHealth
    else UnknownFamily
  }

  /** The beginnings of the symptoms of each family. */
  ghost predicate BeginsLike(value: string, fam: Family)
  {
    match fam
    case ProductionConvergence =>
      || Text.HasPrefix(value, "production_convergence_")
      || Text.HasPrefix(value, "production_health_")
      || Text.HasPrefix(value, "health_metric:jason_production_")
    case RuntimeHealth =>
      || Text.HasPrefix(value, "container_down:")
      || Text.HasPrefix(value, "mcp_status_")
      || Text.HasPrefix(value, "health_metric:jason_mcp_")
    case ProviderHealth =>
      || Text.HasPrefix(value, "provider_canary_")
      || Text.HasPrefix(value, "health_metric:jason_provider_canary_health")
    case TicketAdmission =>
      || Text.HasPrefix(value, "autonomy_")
    case OperationalOutcome =>
      || Text.HasPrefix(value, "outcome_contract_")
      || Text.HasPrefix(value, "workflow_outcome_stale:")
    case ServiceHealth =>
      || Text.HasPrefix(value, "failed_user_unit:")
      || Text.HasPrefix(value, "failed_system_unit:")
      || Text.HasPrefix(value, "systemd_unit_failed:")
    case HostStorageCapacity =>
      || Text.HasPrefix(value, "host_storage_")
    case UnknownFamily => true
  }

  lemma Letter(value: string, prefix: string, k: nat)
    requires k < |prefix|
    ensures Text.HasPrefix(value, prefix) ==> |value| > k && value[k] == prefix[k]
  {
    assert Text.HasPrefix(value, prefix) ==> value[..|prefix|][k] == prefix[k];
  }

  lemma MetricLetters(value: string)
    ensures Text.HasPrefix(value, "health_metric:jason_production_") ==>
              |value| > 23 && value[0] == 'h' && value[1] == 'e' && value[20] == 'p' && value[23] == 'd'
    ensures Text.HasPrefix(value, "health_metric:jason_mcp_") ==>
              |value| > 20 && value[0] == 'h' && value[1] == 'e' && value[20] == 'm'
    ensures Text.HasPrefix(value, "health_metric:jason_provider_canary_health") ==>
              |value| > 23 && value[0] == 'h' && value[1] == 'e' && value[20] == 'p' && value[23] == 'v'
  {
    Letter(value, "health_metric:jason_production_", 0);
    Letter(value, "health_metric:jason_production_", 1);
    Letter(value, "health_metric:jason_production_", 20);
    Letter(value, "health_metric:jason_production_", 23);
    Letter(value, "health_metric:jason_mcp_", 0);
    Letter(value, "health_metric:jason_mcp_", 1);
    Letter(value, "health_metric:jason_mcp_", 20);
    Letter(value, "health_metric:jason_provider_canary_health", 0);
    Letter(value, "health_metric:jason_provider_canary_health", 1);
    Letter(value, "health_metric:jason_provider_canary_health", 20);
    Letter(value, "health_metric:jason_provider_canary_health", 23);
    hide Text.HasPrefix;
  }

  lemma ProductLetters(value: string)
    ensures Text.HasPrefix(value, "production_convergence_") ==>
              |value| > 3 && value[0] == 'p' && value[3] == 'd'
    ensures Text.HasPrefix(value, "production_health_") ==>
              |value| > 3 && value[0] == 'p' && value[3] == 'd'
    ensures Text.HasPrefix(value, "provider_canary_") ==>
              |value| > 3 && value[0] == 'p' && value[3] == 'v'
  {
    Letter(value, "production_convergence_", 0);
    Letter(value, "production_convergence_", 3);
    Letter(value, "production_health_", 0);
    Letter(value, "production_health_", 3);
    Letter(value, "provider_canary_", 0);
    Letter(value, "provider_canary_", 3);
    hide Text.HasPrefix;
  }

  lemma OtherLetters(value: string)
    ensures Text.HasPrefix(value, "container_down:") ==>
              |value| > 0 && value[0] == 'c'
    ensures Text.HasPrefix(value, "mcp_status_") ==>
              |value| > 0 && value[0] == 'm'
    ensures Text.HasPrefix(value, "autonomy_") ==>
              |value| > 0 && value[0] == 'a'
    ensures Text.HasPrefix(value, "outcome_contract_") ==>
              |value| > 0 && value[0] == 'o'
    ensures Text.HasPrefix(value, "workflow_outcome_stale:") ==>
              |value| > 0 && value[0] == 'w'
    ensures Text.HasPrefix(value, "failed_user_unit:") ==>
              |value| > 0 && value[0] == 'f'
    ensures Text.HasPrefix(value, "failed_system_unit:") ==>
              |value| > 0 && value[0] == 'f'
    ensures Text.HasPrefix(value, "systemd_unit_failed:") ==>
              |value| > 0 && value[0] == 's'
    ensures Text.HasPrefix(value, "host_storage_") ==>
              |value| > 1 && value[0] == 'h' && value[1] == 'o'
  {
    Letter(value, "container_down:", 0);
    Letter(value, "mcp_status_", 0);
    Letter(value, "autonomy_", 0);
    Letter(value, "outcome_contract_", 0);
    Letter(value, "workflow_outcome_stale:", 0);
    Letter(value, "failed_user_unit:", 0);
    Letter(value, "failed_system_unit:", 0);
    Letter(value, "systemd_unit_failed:", 0);
    Letter(value, "host_storage_", 0);
    Letter(value, "host_storage_", 1);
    hide Text.HasPrefix;
  }

  /** A symptom is of a family exactly when, folded and stripped, it has one of the
      beginnings of the family: no two families share one, so their order does not matter. */
  lemma FamiliesAreExact(failure: string, fam: Family)
    ensures fam != UnknownFamily ==>
              (FailureFamily(failure) == fam <==> BeginsLike(Text.Lower(Text.Strip(failure)), fam))
    ensures FailureFamily(failure) == UnknownFamily <==>
              forall known | known != UnknownFamily :: !BeginsLike(Text.Lower(Text.Strip(failure)), known)
  {
    var value := Text.Lower(Text.Strip(failure));
    MetricLetters(value);
    ProductLetters(value);
    OtherLetters(value);
    hide Text.HasPrefix, Text.Lower, Text.Strip;
    if forall known | known != UnknownFamily :: !BeginsLike(value, known) {
      assert !BeginsLike(value, ProductionConvergence) && !BeginsLike(value, RuntimeHealth);
      assert !BeginsLike(value, ProviderHealth) && !BeginsLike(value, TicketAdmission);
      assert !BeginsLike(value, OperationalOutcome) && !BeginsLike(value, ServiceHealth);
      assert !BeginsLike(value, HostStorageCapacity);
    }
  }

  /** The failures that say something: blank ones are dropped. */
  function Symptoms(failures: set<string>): set<string>
  {
    set f | f in failures && Text.Strip(f) != ""
  }

  /** What is dropped are exactly the blank failures. */
  lemma SymptomsAreNotBlank(failures: set<string>, f: string)
    ensures f in Symptoms(failures) <==> f in failures && !Text.Blank(f)
  {
    Text.StripsToNothing(f);
    hide Text.Strip, Text.Blank;
  }

  function FamiliesOf(symptoms: set<string>): set<Family>
  {
    set f | f in symptoms :: FailureFamily(f)
  }

  function InFamily(symptoms: set<string>, fam: Family): set<string>
  {
    set f | f in symptoms && FailureFamily(f) == fam
  }

  function Grouped(symptoms: set<string>): map<Family, set<string>>
  {
    map fam | fam in FamiliesOf(symptoms) :: InFamily(symptoms, fam)
  }

  /** The group of a family, moved under production convergence. */
  function Absorb(groups: map<Family, set<string>>, related: Family): map<Family, set<string>>
  {
    if ProductionConvergence in groups && related in groups && related != ProductionConvergence then
      groups[ProductionConvergence := groups[ProductionConvergence] + groups[related]] - {related}
    else groups
  }

  function Correlated(symptoms: set<string>): map<Family, set<string>>
  {
    Absorb(Absorb(Grouped(symptoms), RuntimeHealth), ServiceHealth)
  }

  /** The incidents of a list of failures: one per family, with its symptoms. The
      source lists both sorted, which the set determines. */
  method CorrelateFailures(failures: seq<string>) returns (incidents: map<Family, set<string>>)
    ensures incidents == Correlated(Symptoms((set f | f in failures)))
  {
    hide FailureFamily, Grouped, Symptoms;
    var grouped: map<Family, set<string>> := map[];
    var symptoms := Symptoms((set f | f in failures));
    var todo := symptoms;
    ghost var done: set<string> := {};
    NothingGrouped();
    while todo != {}
      invariant done + todo == symptoms && done !! todo
      invariant grouped == Grouped(done)
      decreases |todo|
    {
      var failure :| failure in todo;
      var family := FailureFamily(failure);
      grouped := grouped[family := (if family in grouped then grouped[family] else {}) + {failure}];
      GroupOneMore(done, failure);
      done := done + {failure};
      todo := todo - {failure};
    }
    assert done == symptoms;
    if ProductionConvergence in grouped {
      if RuntimeHealth in grouped {
        grouped := grouped[ProductionConvergence := grouped[ProductionConvergence] + grouped[RuntimeHealth]] - {RuntimeHealth};
      }
      if ServiceHealth in grouped {
        grouped := grouped[ProductionConvergence := grouped[ProductionConvergence] + grouped[ServiceHealth]] - {ServiceHealth};
      }
    }
    incidents := grouped;
  }

  lemma NothingGrouped()
    ensures Grouped({}) == map[]
  {
  }

  lemma GroupOneMore(done: set<string>, failure: string)
    ensures var g := Grouped(done); var fam := FailureFamily(failure);
            Grouped(done + {failure}) == g[fam := (if fam in g then g[fam] else {}) + {failure}]
  {
    hide FailureFamily;
    var g, fam, all := Grouped(done), FailureFamily(failure), done + {failure};
    var more := g[fam := (if fam in g then g[fam] else {}) + {failure}];
    assert failure in all;
    assert FamiliesOf(all) == FamiliesOf(done) + {fam};
    assert fam !in g ==> InFamily(done, fam) == {} by {
      assert g.Keys == FamiliesOf(done);
    }
    assert InFamily(all, fam) == InFamily(done, fam) + {failure};
    forall k | k in FamiliesOf(done) && k != fam ensures InFamily(all, k) == InFamily(done, k) {
    }
    assert Grouped(all).Keys == more.Keys;
    forall k | k in more ensures Grouped(all)[k] == more[k] {
      hide InFamily, FamiliesOf;
    }
  }

  ghost predicate Downstream(fam: Family)
  {
    fam == RuntimeHealth || fam == ServiceHealth
  }

  /** The incident a symptom belongs to: its own family, except that runtime and
      service symptoms belong to production convergence when that is violated too. */
  ghost function Root(f: string, symptoms: set<string>): Family
  {
    if Downstream(FailureFamily(f)) && (exists g | g in symptoms :: FailureFamily(g) == ProductionConvergence)
    then ProductionConvergence else FailureFamily(f)
  }

  lemma GroupedMembers(symptoms: set<string>, fam: Family, f: string)
    ensures fam in Grouped(symptoms) && f in Grouped(symptoms)[fam] <==> f in symptoms && FailureFamily(f) == fam
    ensures fam in Grouped(symptoms) <==> exists g | g in symptoms :: FailureFamily(g) == fam
  {
    hide FailureFamily;
  }

  /** Every symptom is in exactly one incident, the one of its root, and incidents hold
      nothing else: correlation loses and invents nothing. */
  lemma CorrelationPartitions(symptoms: set<string>, fam: Family, f: string)
    ensures fam in Correlated(symptoms) && f in Correlated(symptoms)[fam] <==> f in symptoms && Root(f, symptoms) == fam
  {
    hide FailureFamily, Grouped;
    GroupedMembers(symptoms, fam, f);
    GroupedMembers(symptoms, ProductionConvergence, f);
    GroupedMembers(symptoms, RuntimeHealth, f);
    GroupedMembers(symptoms, ServiceHealth, f);
  }

  /** No incident is empty, and when production convergence is violated neither runtime
      nor service health is an incident of its own. */
  lemma CorrelationHasNoEmptyIncident(symptoms: set<string>, fam: Family)
    requires fam in Correlated(symptoms)
    ensures Correlated(symptoms)[fam] != {}
    ensures ProductionConvergence in Correlated(symptoms) ==> !Downstream(fam)
    ensures ProductionConvergence in Correlated(symptoms) <==>
              exists g | g in symptoms :: FailureFamily(g) == ProductionConvergence
  {
    hide FailureFamily;
    var groups := Grouped(symptoms);
    forall k | k in groups ensures groups[k] != {} {
      var f :| f in symptoms && FailureFamily(f) == k;
      assert f in groups[k];
    }
    GroupedMembers(symptoms, ProductionConvergence, "");
  }

  // ----- Repair authority -----

  datatype Level = Deterministic | Bounded | OwnerReview | External

  predicate Automatic(l: Level) { l == Deterministic || l == Bounded }

  const DISRUPTIVE := ["reboot_required", "shutdown_required", "forced_logoff_required",
                       "disruptive_approval_required", "owner_approval_required"]

  const OUTSIDE := ["admin_consent_required", "credential_missing", "provider_authority_required",
                    "external_authority_required", "security_boundary_blocked", "sudo_required"]

  /** Python's `" ".join` of the folded symptoms. */
  function Material(symptoms: seq<string>): string
  {
    if symptoms == [] then ""
    else if |symptoms| == 1 then Text.Lower(symptoms[0])
    else Text.Lower(symptoms[0]) + " " + Material(symptoms[1..])
  }

  predicate LooksDown(symptom: string)
  {
    Text.HasPrefix(symptom, "container_down:") || Text.HasPrefix(symptom, "mcp_status_")
  }

  function RepairLevel(fam: Family, symptoms: seq<string>): Level
  {
    if Text.ContainsAny(Material(symptoms), OUTSIDE) then External
    else if Text.ContainsAny(Material(symptoms), DISRUPTIVE) then OwnerReview
    else if fam == HostStorageCapacity then OwnerReview
    else if fam == RuntimeHealth && forall s | s in symptoms :: LooksDown(s) then Deterministic
    else Bounded
  }

  predicate Carries(symptom: string, markers: seq<string>)
  {
    Text.ContainsAny(Text.Lower(symptom), markers)
  }

  lemma OccurrenceSurvivesJoin(a: string, b: string, term: string)
    requires Text.Contains(a, term) || Text.Contains(b, term)
    ensures Text.Contains(a + " " + b, term)
  {
    var s := a + " " + b;
    if Text.Contains(a, term) {
      var i :| 0 <= i <= |a| && Text.OccursAt(a, term, i);
      assert s[i..i + |term|] == a[i..i + |term|];
      assert Text.OccursAt(s, term, i);
    } else {
      var i :| 0 <= i <= |b| && Text.OccursAt(b, term, i);
      assert s[|a| + 1 + i..|a| + 1 + i + |term|] == b[i..i + |term|];
      assert Text.OccursAt(s, term, |a| + 1 + i);
    }
  }

  lemma OccurrenceStaysOnOneSide(a: string, b: string, term: string)
    requires term != "" && ' ' !in term
    requires Text.Contains(a + " " + b, term)
    ensures Text.Contains(a, term) || Text.Contains(b, term)
  {
    var s := a + " " + b;
    var i :| 0 <= i <= |s| && Text.OccursAt(s, term, i);
    var cut := s[i..i + |term|];
    assert s[|a|] == ' ';
    assert forall k | i <= k < i + |term| :: s[k] == cut[k - i] && s[k] != ' ';
    if i + |term| <= |a| {
      assert a[i..i + |term|] == cut;
      assert Text.OccursAt(a, term, i);
    } else {
      assert b[i - |a| - 1..i - |a| - 1 + |term|] == cut;
      assert Text.OccursAt(b, term, i - |a| - 1);
    }
  }

  lemma {:induction false} MaterialContains(symptoms: seq<string>, term: string)
    requires term != "" && ' ' !in term
    ensures Text.Contains(Material(symptoms), term) <==> exists s | s in symptoms :: Text.Contains(Text.Lower(s), term)
  {
    if |symptoms| > 1 {
      var first, rest := Text.Lower(symptoms[0]), Material(symptoms[1..]);
      if Text.Contains(first + " " + rest, term) {
        OccurrenceStaysOnOneSide(first, rest, term);
      }
      if Text.Contains(first, term) || Text.Contains(rest, term) {
        OccurrenceSurvivesJoin(first, rest, term);
      }
      hide Text.Contains;
      MaterialContains(symptoms[1..], term);
      assert symptoms == [symptoms[0]] + symptoms[1..];
    }
  }

  lemma MaterialCarries(symptoms: seq<string>, markers: seq<string>)
    requires forall m | m in markers :: m != "" && ' ' !in m
    ensures Text.ContainsAny(Material(symptoms), markers) <==> exists s | s in symptoms :: Carries(s, markers)
  {
    forall m | m in markers
      ensures Text.Contains(Material(symptoms), m) <==> exists s | s in symptoms :: Text.Contains(Text.Lower(s), m)
    {
      MaterialContains(symptoms, m);
    }
    hide Text.Contains, Material;
  }

  predicate OneWord(m: string) { m != "" && ' ' !in m }

  lemma OutsideMarkersAreWords()
    ensures forall m | m in OUTSIDE :: OneWord(m)
  {
  }

  lemma DisruptiveMarkersAreWords()
    ensures forall m | m in DISRUPTIVE :: OneWord(m)
  {
  }

  /** An incident is repaired automatically exactly when no single symptom of it
      carries a marker and it is not about storage: joining the symptoms neither
      creates nor hides a marker, and their order does not matter. */
  lemma AutomaticExactly(fam: Family, symptoms: seq<string>)
    ensures Automatic(RepairLevel(fam, symptoms)) <==>
              && fam != HostStorageCapacity
              && forall s | s in symptoms :: !Carries(s, OUTSIDE) && !Carries(s, DISRUPTIVE)
  {
    OutsideMarkersAreWords();
    DisruptiveMarkersAreWords();
    MaterialCarries(symptoms, OUTSIDE);
    MaterialCarries(symptoms, DISRUPTIVE);
    hide Material, Carries, Text.ContainsAny, LooksDown;
  }

  ghost predicate Says(symptom: string, marker: string)
  {
    Text.Contains(Text.Lower(symptom), marker)
  }

  /** Something only others can give. */
  ghost predicate NeedsOthers(s: string)
  {
    || Says(s, "admin_consent_required") || Says(s, "credential_missing") || Says(s, "provider_authority_required")
    || Says(s, "external_authority_required") || Says(s, "security_boundary_blocked") || Says(s, "sudo_required")
  }

  /** Something that disrupts. */
  ghost predicate Disrupts(s: string)
  {
    || Says(s, "reboot_required") || Says(s, "shutdown_required") || Says(s, "forced_logoff_required")
    || Says(s, "disruptive_approval_required") || Says(s, "owner_approval_required")
  }

  lemma OutsideMarkersAreExact(s: string)
    ensures Carries(s, OUTSIDE) <==> NeedsOthers(s)
  {
    var m := OUTSIDE;
    assert |m| == 6;
    assert m[0] in m && m[1] in m && m[2] in m && m[3] in m && m[4] in m && m[5] in m;
    hide Text.Contains, Text.Lower;
  }

  lemma DisruptiveMarkersAreExact(s: string)
    ensures Carries(s, DISRUPTIVE) <==> Disrupts(s)
  {
    var m := DISRUPTIVE;
    assert |m| == 5;
    assert m[0] in m && m[1] in m && m[2] in m && m[3] in m && m[4] in m;
    hide Text.Contains, Text.Lower;
  }

  ghost predicate SaysDown(s: string)
  {
    (|s| >= 15 && s[..15] == "container_down:") || (|s| >= 11 && s[..11] == "mcp_status_")
  }

  lemma DownSymptomsAreExact(s: string)
    ensures LooksDown(s) <==> SaysDown(s)
  {
  }

  /** Which level an incident gets: what others must give comes before what disrupts, and
      both before what the family allows. */
  lemma LevelsAreExact(fam: Family, symptoms: seq<string>)
    ensures var others := exists s | s in symptoms :: NeedsOthers(s);
            var owner := (exists s | s in symptoms :: Disrupts(s)) || fam == HostStorageCapacity;
            var down := fam == RuntimeHealth && forall s | s in symptoms :: SaysDown(s);
            RepairLevel(fam, symptoms) ==
            if others then External else if owner then OwnerReview else if down then Deterministic else Bounded
  {
    hide Material, Text.ContainsAny, NeedsOthers, Disrupts, LooksDown, SaysDown;
    MaterialNeedsOthers(symptoms);
    MaterialDisrupts(symptoms);
    forall s ensures LooksDown(s) <==> SaysDown(s) { DownSymptomsAreExact(s); }
  }

  lemma MaterialNeedsOthers(symptoms: seq<string>)
    ensures Text.ContainsAny(Material(symptoms), OUTSIDE) <==> exists s | s in symptoms :: NeedsOthers(s)
  {
    hide Material, Carries, Text.ContainsAny, NeedsOthers;
    OutsideMarkersAreWords();
    MaterialCarries(symptoms, OUTSIDE);
    forall s ensures Carries(s, OUTSIDE) <==> NeedsOthers(s) { OutsideMarkersAreExact(s); }
  }

  lemma MaterialDisrupts(symptoms: seq<string>)
    ensures Text.ContainsAny(Material(symptoms), DISRUPTIVE) <==> exists s | s in symptoms :: Disrupts(s)
  {
    hide Material, Carries, Text.ContainsAny, Disrupts;
    DisruptiveMarkersAreWords();
    MaterialCarries(symptoms, DISRUPTIVE);
    forall s ensures Carries(s, DISRUPTIVE) <==> Disrupts(s) { DisruptiveMarkersAreExact(s); }
  }

  /** More symptoms never widen the authority to act without the owner. */
  lemma AuthorityNeverGrows(fam: Family, fewer: seq<string>, more: seq<string>)
    requires forall s | s in fewer :: s in more
    requires Automatic(RepairLevel(fam, more))
    ensures Automatic(RepairLevel(fam, fewer))
  {
    AutomaticExactly(fam, fewer);
    AutomaticExactly(fam, more);
    hide RepairLevel, Carries;
  }

  /** Whether an incident with these symptoms is left to the owner. */
  predicate NeedsOwner(fam: Family, symptoms: set<string>)
  {
    fam == HostStorageCapacity || exists s | s in symptoms :: Carries(s, OUTSIDE) || Carries(s, DISRUPTIVE)
  }

  /** However the symptoms are listed, the level of an incident asks for the owner
      exactly when one of its symptoms does. */
  lemma OwnerExactly(fam: Family, listed: seq<string>)
    ensures !Automatic(RepairLevel(fam, listed)) <==> NeedsOwner(fam, (set s | s in listed))
  {
    AutomaticExactly(fam, listed);
    hide RepairLevel, Carries;
  }

  // ----- Recurrence memory -----

  datatype Record = Record(
    active: bool, firstSeenAt: int, lastSeenAt: int, occurrences: nat, lastClearedAt: Option<int>)

  datatype Tick = Tick(present: set<Family>, at: int)

  function Clear(r: Record, at: int): Record
  {
    r.(active := false, lastClearedAt := Some(at))
  }

  function See(previous: Option<Record>, at: int): Record
  {
    match previous
    case None => Record(true, at, at, 1, None)
    case Some(p) => Record(true, p.firstSeenAt, at, if p.active then p.occurrences else p.occurrences + 1, None)
  }

  function Recall(memory: map<Family, Record>, fam: Family): Option<Record>
  {
    if fam in memory then Some(memory[fam]) else None
  }

  function Observe(memory: map<Family, Record>, tick: Tick): map<Family, Record>
  {
    map fam | fam in memory.Keys + tick.present ::
      if fam in tick.present then See(Recall(memory, fam), tick.at) else Clear(memory[fam], tick.at)
  }

  function Listed(incidents: seq<Family>): set<Family>
  {
    set f | f in incidents
  }

  class IssueMemory {
    var families: map<Family, Record>

    constructor ()
      ensures families == map[]
    {
      families := map[];
    }

    method ClearAbsent(present: set<Family>, at: int)
      modifies this
      ensures families.Keys == old(families).Keys
      ensures forall f | f in families ::
                families[f] == if f in present then old(families)[f] else Clear(old(families)[f], at)
    {
      ghost var before := families;
      var todo := families.Keys;
      while todo != {}
        invariant families.Keys == before.Keys && todo <= before.Keys
        invariant forall f | f in before ::
          families[f] == if f in todo || f in present then before[f] else Clear(before[f], at)
        decreases |todo|
      {
        var family :| family in todo;
        if family !in present {
          families := families[family := families[family].(active := false, lastClearedAt := Some(at))];
        }
        todo := todo - {family};
      }
    }

    method SeeOne(family: Family, at: int) returns (occurrences: nat)
      modifies this
      ensures families == old(families)[family := See(Recall(old(families), family), at)]
      ensures occurrences == families[family].occurrences
    {
      var firstSeen := at;
      occurrences := 0;
      var wasActive := false;
      if family in families {
        firstSeen, occurrences, wasActive :=
          families[family].firstSeenAt, families[family].occurrences, families[family].active;
      }
      if !wasActive {
        occurrences := occurrences + 1;
      }
      families := families[family := Record(true, firstSeen, at, occurrences, None)];
    }

    /** Clear what is gone, then count what is there. A family listed twice counts once. */
    method Update(incidents: seq<Family>, at: int) returns (occurrences: seq<nat>)
      modifies this
      ensures families == Observe(old(families), Tick(Listed(incidents), at))
      ensures |occurrences| == |incidents|
      ensures forall i | 0 <= i < |incidents| :: occurrences[i] == families[incidents[i]].occurrences
    {
      hide PartlyObserved, See, Clear;
      ghost var before := families;
      var present := Listed(incidents);
      ClearAbsent(present, at);
      occurrences := [];
      var i := 0;
      NothingSeen(before, present, at, families);
      assert Listed(incidents[..0]) == {};
      while i < |incidents|
        invariant 0 <= i <= |incidents| && |occurrences| == i
        invariant families == PartlyObserved(before, Listed(incidents[..i]), present, at)
        invariant forall k | 0 <= k < i :: incidents[k] in families && occurrences[k] == families[incidents[k]].occurrences
      {
        ghost var seen := Listed(incidents[..i]);
        assert Listed(incidents[..i + 1]) == seen + {incidents[i]} by {
          assert incidents[..i + 1] == incidents[..i] + [incidents[i]];
        }
        OneMoreSeen(before, seen, present, at, incidents[i]);
        var count := SeeOne(incidents[i], at);
        occurrences := occurrences + [count];
        i := i + 1;
      }
      assert incidents[..i] == incidents;
      AllSeen(before, present, at);
    }
  }

  /** The memory when only some of the families present have been counted. */
  function PartlyObserved(memory: map<Family, Record>, seen: set<Family>, present: set<Family>, at: int): map<Family, Record>
  {
    map fam | fam in memory.Keys + seen ::
      if fam in seen then See(Recall(memory, fam), at)
      else if fam in present then memory[fam] else Clear(memory[fam], at)
  }

  lemma NothingSeen(memory: map<Family, Record>, present: set<Family>, at: int, cleared: map<Family, Record>)
    requires cleared.Keys == memory.Keys
    requires forall f | f in cleared :: cleared[f] == if f in present then memory[f] else Clear(memory[f], at)
    ensures cleared == PartlyObserved(memory, {}, present, at)
  {
  }

  lemma OneMoreSeen(memory: map<Family, Record>, seen: set<Family>, present: set<Family>, at: int, fam: Family)
    requires fam in present
    ensures var m := PartlyObserved(memory, seen, present, at);
            && PartlyObserved(memory, seen + {fam}, present, at) == m[fam := See(Recall(m, fam), at)]
            && (fam in seen ==> PartlyObserved(memory, seen + {fam}, present, at) == m)
            && forall f | f in seen :: f in m && f in PartlyObserved(memory, seen + {fam}, present, at)
                                       && PartlyObserved(memory, seen + {fam}, present, at)[f] == m[f]
  {
    hide See, Clear;
    SeenTwice(Recall(memory, fam), at);
    var m := PartlyObserved(memory, seen, present, at);
    assert fam in seen ==> seen + {fam} == seen;
    assert PartlyObserved(memory, seen + {fam}, present, at) == m[fam := See(Recall(m, fam), at)];
  }

  lemma AllSeen(memory: map<Family, Record>, present: set<Family>, at: int)
    ensures PartlyObserved(memory, present, present, at) == Observe(memory, Tick(present, at))
  {
    hide See, Clear;
  }

  lemma SeenTwice(previous: Option<Record>, at: int)
    ensures See(Some(See(previous, at)), at) == See(previous, at)
  {
  }

  /** The memory after a whole history of ticks. */
  function MemoryAfter(h: seq<Tick>): map<Family, Record>
  {
    if h == [] then map[] else Observe(MemoryAfter(h[..|h| - 1]), h[|h| - 1])
  }

  ghost predicate Starts(h: seq<Tick>, i: int, fam: Family)
    requires 0 <= i < |h|
  {
    fam in h[i].present && (i == 0 || fam !in h[i - 1].present)
  }

  /** The ticks at which the family was present after being absent. */
  ghost function Onsets(h: seq<Tick>, fam: Family): set<int>
  {
    set i | 0 <= i < |h| && Starts(h, i, fam)
  }

  ghost predicate FirstSeen(h: seq<Tick>, fam: Family, at: int)
  {
    exists i | 0 <= i < |h| :: fam in h[i].present && h[i].at == at && forall j | 0 <= j < i :: fam !in h[j].present
  }

  ghost predicate LastSeen(h: seq<Tick>, fam: Family, at: int)
  {
    exists i | 0 <= i < |h| :: fam in h[i].present && h[i].at == at && forall j | i < j < |h| :: fam !in h[j].present
  }

  lemma OnsetsGrow(h: seq<Tick>, fam: Family)
    requires h != []
    ensures var n := |h| - 1;
            |Onsets(h, fam)| == |Onsets(h[..n], fam)| + if Starts(h, n, fam) then 1 else 0
  {
    var n := |h| - 1;
    var front := h[..n];
    OnsetsOfFront(h, fam);
    hide Onsets, Starts;
    if Starts(h, n, fam) {
      assert |Onsets(front, fam) + {n}| == |Onsets(front, fam)| + 1;
    } else {
      assert Onsets(front, fam) + {} == Onsets(front, fam);
    }
  }

  lemma OnsetsOfFront(h: seq<Tick>, fam: Family)
    requires h != []
    ensures var n := |h| - 1;
            && Onsets(h, fam) == Onsets(h[..n], fam) + (if Starts(h, n, fam) then {n} else {})
            && n !in Onsets(h[..n], fam)
  {
    var n := |h| - 1;
    var front := h[..n];
    assert forall i | 0 <= i < n :: h[i] == front[i];
    assert forall i | 0 <= i < n :: Starts(h, i, fam) <==> Starts(front, i, fam);
  }

  /** What a record says about a history: whether the family is present now, how often
      it came back, when it was first and last seen, and when the last tick without it was. */
  ghost predicate Describes(r: Record, h: seq<Tick>, fam: Family)
    requires h != []
  {
    && (r.active <==> fam in h[|h| - 1].present)
    && r.occurrences == |Onsets(h, fam)|
    && FirstSeen(h, fam, r.firstSeenAt)
    && LastSeen(h, fam, r.lastSeenAt)
    && r.lastClearedAt == (if r.active then None else Some(h[|h| - 1].at))
  }

  ghost predicate EverPresent(h: seq<Tick>, fam: Family)
  {
    exists i | 0 <= i < |h| :: fam in h[i].present
  }

  /** A family has a record exactly when it was ever present, and the record describes
      the whole history. */
  lemma {:induction false} MemoryRefinesHistory(h: seq<Tick>, fam: Family)
    ensures fam in MemoryAfter(h) <==> EverPresent(h, fam)
    ensures fam in MemoryAfter(h) ==> h != [] && Describes(MemoryAfter(h)[fam], h, fam)
  {
    if h != [] {
      var n := |h| - 1;
      var front := h[..n];
      MemoryRefinesHistory(front, fam);
      PresenceGrows(h, fam);
      if fam in h[n].present {
        if fam in MemoryAfter(front) {
          SeenAgain(h, fam, MemoryAfter(front)[fam]);
        } else {
          SeenAtLast(h, fam);
        }
      } else if fam in MemoryAfter(front) {
        StillGone(h, fam, MemoryAfter(front)[fam]);
      }
      hide Describes, EverPresent, See, Clear;
    }
  }

  lemma PresenceGrows(h: seq<Tick>, fam: Family)
    requires h != []
    ensures EverPresent(h, fam) <==> EverPresent(h[..|h| - 1], fam) || fam in h[|h| - 1].present
  {
    var front := h[..|h| - 1];
    assert forall i | 0 <= i < |front| :: h[i] == front[i];
  }

  lemma SeenAgain(h: seq<Tick>, fam: Family, r: Record)
    requires |h| > 1 && fam in h[|h| - 1].present
    requires Describes(r, h[..|h| - 1], fam)
    ensures Describes(See(Some(r), h[|h| - 1].at), h, fam)
  {
    OnsetsGrow(h, fam);
    SightingsGrow(h, fam);
    hide FirstSeen, LastSeen, Onsets;
  }

  lemma SeenAtLast(h: seq<Tick>, fam: Family)
    requires h != [] && fam in h[|h| - 1].present
    requires !EverPresent(h[..|h| - 1], fam)
    ensures Describes(See(None, h[|h| - 1].at), h, fam)
  {
    var n := |h| - 1;
    var front := h[..n];
    assert forall i | 0 <= i < n :: h[i] == front[i];
    NoOnsets(front, fam);
    OnsetsGrow(h, fam);
    SightingsGrow(h, fam);
    hide FirstSeen, LastSeen, Onsets;
  }

  lemma StillGone(h: seq<Tick>, fam: Family, r: Record)
    requires |h| > 1 && fam !in h[|h| - 1].present
    requires Describes(r, h[..|h| - 1], fam)
    ensures Describes(Clear(r, h[|h| - 1].at), h, fam)
  {
    OnsetsGrow(h, fam);
    SightingsGrow(h, fam);
    hide FirstSeen, LastSeen, Onsets;
  }

  lemma NoOnsets(h: seq<Tick>, fam: Family)
    requires forall i | 0 <= i < |h| :: fam !in h[i].present
    ensures Onsets(h, fam) == {}
  {
  }

  lemma SightingsGrow(h: seq<Tick>, fam: Family)
    requires h != []
    ensures var n := |h| - 1;
            && (forall at | FirstSeen(h[..n], fam, at) :: FirstSeen(h, fam, at))
            && (forall at | LastSeen(h[..n], fam, at) && fam !in h[n].present :: LastSeen(h, fam, at))
            && (fam in h[n].present ==> LastSeen(h, fam, h[n].at))
            && (fam in h[n].present && (forall i | 0 <= i < n :: fam !in h[i].present) ==> FirstSeen(h, fam, h[n].at))
  {
    var n := |h| - 1;
    var front := h[..n];
    assert forall i | 0 <= i < n :: h[i] == front[i];
    forall at | FirstSeen(front, fam, at) ensures FirstSeen(h, fam, at) {
      var i :| 0 <= i < n && fam in front[i].present && front[i].at == at && forall j | 0 <= j < i :: fam !in front[j].present;
      assert fam in h[i].present && h[i].at == at;
    }
    forall at | LastSeen(front, fam, at) && fam !in h[n].present ensures LastSeen(h, fam, at) {
      var i :| 0 <= i < n && fam in front[i].present && front[i].at == at && forall j | i < j < n :: fam !in front[j].present;
      assert fam in h[i].present && h[i].at == at;
    }
    if fam in h[n].present {
      assert h[n].at == h[n].at;
    }
  }

  ghost predicate StrictClock(h: seq<Tick>)
  {
    forall i, j | 0 <= i < j < |h| :: h[i].at < h[j].at
  }

  /** The stored clearing time is not the time of clearing: it moves to every later
      tick, so it is right only at the tick of the clearing itself. */
  lemma ClearingTimeIsExactOnlyAtFirst(h: seq<Tick>, fam: Family, c: nat)
    requires StrictClock(h) && 0 < c < |h|
    requires fam in h[c - 1].present && forall i | c <= i < |h| :: fam !in h[i].present
    ensures fam in MemoryAfter(h)
    ensures MemoryAfter(h)[fam].lastClearedAt == Some(h[c].at) <==> c == |h| - 1
  {
    MemoryRefinesHistory(h, fam);
    assert EverPresent(h, fam);
    hide MemoryAfter, FirstSeen, LastSeen, Onsets;
  }

  ghost predicate Violated(symptoms: set<string>, fam: Family)
  {
    exists f | f in symptoms :: FailureFamily(f) == fam
  }

  lemma CorrelatedFamilies(symptoms: set<string>, fam: Family)
    ensures fam in Correlated(symptoms) <==>
              Violated(symptoms, fam) && !(Downstream(fam) && Violated(symptoms, ProductionConvergence))
  {
    hide FailureFamily, Grouped;
    GroupedMembers(symptoms, fam, "");
    GroupedMembers(symptoms, ProductionConvergence, "");
    GroupedMembers(symptoms, RuntimeHealth, "");
  }

  ghost predicate Emerges(hs: seq<set<string>>, i: int)
    requires 0 <= i < |hs|
  {
    !Violated(hs[i], ProductionConvergence) && (i == 0 || Violated(hs[i - 1], ProductionConvergence))
  }

  function CorrelatedTicks(hs: seq<set<string>>): seq<Tick>
  {
    seq(|hs|, i requires 0 <= i < |hs| => Tick(Correlated(hs[i]).Keys, i))
  }

  /** A runtime or service family whose symptoms never go away is still counted as
      recurring once for every stretch in which production convergence was healthy:
      being absorbed looks the same to the memory as being cleared. */
  lemma AbsorptionLooksLikeRecurrence(hs: seq<set<string>>, fam: Family)
    requires Downstream(fam)
    requires forall i | 0 <= i < |hs| :: Violated(hs[i], fam)
    ensures fam in MemoryAfter(CorrelatedTicks(hs)) <==>
              exists i | 0 <= i < |hs| :: !Violated(hs[i], ProductionConvergence)
    ensures fam in MemoryAfter(CorrelatedTicks(hs)) ==>
              MemoryAfter(CorrelatedTicks(hs))[fam].occurrences == |set i | 0 <= i < |hs| && Emerges(hs, i)|
  {
    var ticks := CorrelatedTicks(hs);
    forall i | 0 <= i < |hs| ensures fam in ticks[i].present <==> !Violated(hs[i], ProductionConvergence) {
      CorrelatedFamilies(hs[i], fam);
    }
    assert Onsets(ticks, fam) == set i | 0 <= i < |hs| && Emerges(hs, i) by {
      hide Violated, Correlated, MemoryAfter;
      assert forall i | 0 <= i < |hs| :: Starts(ticks, i, fam) <==> Emerges(hs, i);
    }
    hide Violated, Correlated, MemoryAfter, FirstSeen, LastSeen, CorrelatedTicks, Starts, Emerges, Onsets;
    MemoryRefinesHistory(ticks, fam);
  }
}
