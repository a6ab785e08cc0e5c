/** Replacement of the live container with compensation
    (tools/deploy_live_container.py). Docker is a map from container names and a map
    from image tags; every command may fail, and then changes nothing. */
module Deployment {

  import opened Wrappers

  /** What the replacement check reads of a container. */
  datatype Container = Container(
    id: string, image: string, running: bool, labelRevision: string, envRevision: Option<string>, hardened: bool)

  datatype Request = Request(
    live: string, rollback: string, candidateId: string, sourceRevision: string,
    blueprint: Container, networks: seq<string>, harden: bool, healthAttempts: int,
    promoteTags: seq<string>, rollbackTag: Option<string>, preflight: bool)

  datatype Verdict =
    | Refused
    | PreflightPassed
    | Deployed
    | Failed(renamed: bool, aliasesMutated: bool, at: nat)

  // ----- What the steps mean for the two maps -----

  predicate RetargetsRollback(q: Request, previous: string)
  {
    q.rollbackTag.Some? && previous != q.candidateId
  }

  /** Every promoted tag on the candidate, the rollback tag on the previous image when
      that differs, every other tag as it was. */
  function Promoted(tags: map<string, string>, q: Request, previous: string): map<string, string>
  {
    var withRollback := if RetargetsRollback(q, previous) then tags[q.rollbackTag.value := previous] else tags;
    withRollback + map t | t in q.promoteTags :: q.candidateId
  }

  /** The tags that a deployment may move, in the order they are read before it. */
  function AliasList(q: Request): seq<string>
  {
    q.promoteTags + if q.rollbackTag.Some? then [q.rollbackTag.value] else []
  }

  function AliasTags(q: Request): set<string>
  {
    set t | t in AliasList(q)
  }

  /** What the command line leaves of the tags: no tag is promoted twice. */
  predicate Parsed(q: Request)
  {
    forall i, j | 0 <= i < j < |q.promoteTags| :: q.promoteTags[i] != q.promoteTags[j]
  }

  /** The two maps agree on every tag outside s. */
  ghost predicate SameOutside(a: map<string, string>, b: map<string, string>, s: set<string>)
  {
    forall t | t !in s :: AgreeOn(a, b, t)
  }

  predicate AgreeOn(a: map<string, string>, b: map<string, string>, t: string)
  {
    (t in a <==> t in b) && (t in a && t in b ==> a[t] == b[t])
  }

  lemma AgreeEverywhere(a: map<string, string>, b: map<string, string>)
    requires SameOutside(a, b, {})
    ensures a == b
  {
    forall t ensures (t in a <==> t in b) && (t in a && t in b ==> a[t] == b[t]) {
      assert AgreeOn(a, b, t);
    }
    assert a.Keys == b.Keys;
  }

  function Stopped(c: Container): Container { c.(running := false) }

  function Started(c: Container): Container { c.(running := true) }

  /** Stopping and starting change nothing of a container but whether it runs. */
  lemma OnlyRunningChanges(c: Container)
    ensures !Stopped(c).running && Stopped(c).(running := c.running) == c
    ensures Started(c).running && Started(c).(running := c.running) == c
  {
  }

  /** The original container waits, stopped, under the rollback name. */
  function Swapped(before: map<string, Container>, q: Request): map<string, Container>
    requires q.live in before
  {
    (before - {q.live})[q.rollback := Stopped(before[q.live])]
  }

  predicate Verified(c: Container, q: Request)
  {
    && c.image == q.candidateId
    && c.labelRevision == q.sourceRevision
    && (c.envRevision.None? || c.envRevision.value == q.sourceRevision)
    && (q.harden ==> c.hardened)
  }

  /** The command line is contradictory: a rollback tag alone, or among the promoted ones. */
  predicate BadTags(q: Request)
  {
    q.rollbackTag.Some? && (q.promoteTags == [] || q.rollbackTag.value in q.promoteTags)
  }

  /** A completed promotion, tag by tag: when the candidate is already live, the
      rollback tag keeps pointing to the older known-good image. */
  lemma PromotionByTag(tags: map<string, string>, q: Request, previous: string, t: string)
    requires !BadTags(q)
    ensures var after := Promoted(tags, q, previous);
            && (t in q.promoteTags ==> t in after && after[t] == q.candidateId)
            && (q.rollbackTag == Some(t) && previous != q.candidateId ==> t in after && after[t] == previous)
            && (q.rollbackTag == Some(t) && previous == q.candidateId ==> AgreeOn(after, tags, t))
            && (t !in AliasTags(q) ==> AgreeOn(after, tags, t))
  {
  }

  /** The tags whose reading failed, when they were read from the given command on. */
  ghost function Unread(q: Request, fails: nat -> bool, start: nat): set<string>
  {
    set i | 0 <= i < |AliasList(q)| && fails(start + i) :: AliasList(q)[i]
  }

  /** Restoring from the snapshot gives every tag back exactly when no tag that existed
      was unreadable when the snapshot was taken. */
  lemma RestorationIsCompleteExactly(q: Request, tags: map<string, string>, fails: nat -> bool, start: nat)
    ensures tags - Unread(q, fails, start) == tags <==>
              forall i | 0 <= i < |AliasList(q)| && AliasList(q)[i] in tags :: !fails(start + i)
  {
    hide AliasList;
    var list, lost := AliasList(q), Unread(q, fails, start);
    assert (forall t | t in tags :: t !in lost) ==> tags - lost == tags;
    if tags - lost == tags {
      forall i | 0 <= i < |list| && list[i] in tags ensures !fails(start + i) {
        assert list[i] in (tags - lost).Keys;
        assert list[i] !in lost;
      }
    }
  }

  // ----- Which commands decide what -----

  /** How many commands have been issued once those from one number up to another were
      issued in order until one failed. */
  ghost function Issued(fails: nat -> bool, from: nat, to: nat): (n: nat)
    requires from <= to
    ensures from <= n <= to
    ensures AllFine(fails, from, to) ==> n == to
    decreases if from <= to then to - from else 0
  {
    if from == to then from else if fails(from) then from + 1 else Issued(fails, from + 1, to)
  }

  ghost predicate AllFine(fails: nat -> bool, from: nat, to: nat)
  {
    forall i | from <= i < to :: !fails(i)
  }

  ghost predicate SomeFine(fails: nat -> bool, from: nat, attempts: int)
  {
    exists i: nat | from <= i < from + attempts :: !fails(i)
  }

  /** How many commands have been issued once the probing has ended. */
  ghost function Probed(fails: nat -> bool, from: nat, attempts: int): (n: nat)
    ensures n >= from
    decreases attempts
  {
    if attempts <= 0 then from else if !fails(from) then from + 1 else Probed(fails, from + 1, attempts - 1)
  }

  /** The number of the command that stops the original: the reads come before it. */
  function StopAt(q: Request, start: nat): nat { start + |AliasList(q)| + 4 }

  ghost predicate Refuses(q: Request, containers: map<string, Container>, fails: nat -> bool, start: nat)
  {
    var first := start + |AliasList(q)|;
    || BadTags(q)
    || q.live !in containers || fails(first)
    || (q.rollback in containers && !fails(first + 1))
    || fails(first + 2) || fails(first + 3)
  }

  /** The original is out of the way: stop and rename end well and the name was free. */
  ghost predicate Renames(q: Request, containers: map<string, Container>, fails: nat -> bool, stop: nat)
  {
    !fails(stop) && !fails(stop + 1) && q.rollback !in containers
  }

  /** Creating, connecting, starting and inspecting the replacement, in number. */
  function SetupCount(q: Request): nat { |q.networks| + 3 }

  ghost predicate Replaces(q: Request, fails: nat -> bool, from: nat)
  {
    && AllFine(fails, from, from + SetupCount(q))
    && Verified(q.blueprint, q)
    && SomeFine(fails, from + SetupCount(q), q.healthAttempts)
  }

  ghost function ReplaceEnd(q: Request, fails: nat -> bool, from: nat): (n: nat)
    ensures n >= from
  {
    var to := from + SetupCount(q);
    if !AllFine(fails, from, to) then Issued(fails, from, to)
    else if !Verified(q.blueprint, q) then to
    else Probed(fails, to, q.healthAttempts)
  }

  /** Tagging and reading back, in number. */
  function PromoteCount(q: Request, previous: string): nat
  {
    if q.promoteTags == [] then 0 else 2 * (|q.promoteTags| + if RetargetsRollback(q, previous) then 1 else 0)
  }

  ghost predicate Succeeds(q: Request, containers: map<string, Container>, fails: nat -> bool, stop: nat)
    requires q.live in containers
  {
    var end := ReplaceEnd(q, fails, stop + 2);
    && Renames(q, containers, fails, stop)
    && Replaces(q, fails, stop + 2)
    && AllFine(fails, end, end + PromoteCount(q, containers[q.live].image))
  }

  /** How many commands have been issued when the swap is over. */
  ghost function SwapEnd(q: Request, containers: map<string, Container>, fails: nat -> bool, stop: nat): nat
    requires q.live in containers
  {
    var end := ReplaceEnd(q, fails, stop + 2);
    if fails(stop) then stop + 1
    else if !Renames(q, containers, fails, stop) then stop + 2
    else if !Replaces(q, fails, stop + 2) then end
    else Issued(fails, end, end + PromoteCount(q, containers[q.live].image))
  }

  ghost predicate MovesAliases(q: Request, containers: map<string, Container>, fails: nat -> bool, stop: nat)
  {
    Renames(q, containers, fails, stop) && Replaces(q, fails, stop + 2) && q.promoteTags != []
  }

  /** The verdict on a request, from the commands that fail. */
  ghost function Decision(q: Request, containers: map<string, Container>, fails: nat -> bool, start: nat): Verdict
  {
    var stop := StopAt(q, start);
    if Refuses(q, containers, fails, start) then Refused
    else if q.preflight then PreflightPassed
    else if Succeeds(q, containers, fails, stop) then Deployed
    else Failed(Renames(q, containers, fails, stop), MovesAliases(q, containers, fails, stop),
                SwapEnd(q, containers, fails, stop))
  }

  function CompensationCount(q: Request, renamed: bool, aliasesMutated: bool): nat
  {
    (if aliasesMutated then |AliasList(q)| else 0) + if renamed then 3 else 1
  }

  /** The containers after a failure whose compensation ends well. */
  function Aftermath(q: Request, containers: map<string, Container>, renamed: bool): map<string, Container>
    requires q.live in containers
  {
    if renamed then containers[q.live := Started(containers[q.live])] else containers - {q.live}
  }

  /** The original container still exists, under its own or the rollback name. */
  ghost predicate Survives(q: Request, before: map<string, Container>, after: map<string, Container>)
    requires q.live in before
  {
    || (q.live in after && Stopped(after[q.live]) == Stopped(before[q.live]))
    || (q.rollback in after && Stopped(after[q.rollback]) == Stopped(before[q.live]))
  }

  /** The two maps agree on every name but the two that the request is about. */
  ghost predicate Untouched(q: Request, a: map<string, Container>, b: map<string, Container>)
  {
    forall name | name != q.live && name != q.rollback ::
      (name in a <==> name in b) && (name in a && name in b ==> a[name] == b[name])
  }

  lemma SwapTouchesTwoNames(q: Request, before: map<string, Container>, c: Container)
    requires q.live in before
    ensures Untouched(q, Swapped(before, q)[q.live := c], before)
    ensures Untouched(q, before, before)
  {
  }

  /** A failed deployment whose compensation ends well puts the original back, running,
      exactly when stopping and renaming it had ended well and the rollback name was
      free. In every other case it is gone. */
  lemma FailureKeepsOriginalExactly(q: Request, containers: map<string, Container>, fails: nat -> bool, start: nat)
    requires q.live in containers && Decision(q, containers, fails, start).Failed?
    ensures var after := Aftermath(q, containers, Decision(q, containers, fails, start).renamed);
            var stop := StopAt(q, start);
            && (q.live in after <==> !fails(stop) && !fails(stop + 1) && q.rollback !in containers)
            && (q.live in after ==> after == containers[q.live := Started(containers[q.live])])
  {
    hide Refuses, Succeeds, MovesAliases, SwapEnd;
  }

  /** What was created is what was asked for: image, revision label, revision in the
      environment if there is one, and hardening if it was asked for. */
  ghost predicate AsAskedFor(q: Request)
  {
    && q.blueprint.image == q.candidateId
    && q.blueprint.labelRevision == q.sourceRevision
    && (q.blueprint.envRevision == None || q.blueprint.envRevision == Some(q.sourceRevision))
    && (!q.harden || q.blueprint.hardened)
  }

  lemma VerifiedAsAskedFor(q: Request)
    ensures Verified(q.blueprint, q) <==> AsAskedFor(q)
  {
  }

  /** The verdicts when no command fails, in the fields of the request. */
  ghost predicate CleanVerdict(q: Request, containers: map<string, Container>, verdict: Verdict)
  {
    var consistent := q.rollbackTag == None || (q.promoteTags != [] && q.rollbackTag.value !in q.promoteTags);
    var startable := consistent && q.live in containers && q.rollback !in containers;
    && (verdict.Refused? <==> !startable)
    && (verdict.PreflightPassed? <==> startable && q.preflight)
    && (verdict.Deployed? <==> startable && !q.preflight && AsAskedFor(q) && q.healthAttempts >= 1)
    && (verdict.Failed? ==> verdict.renamed && !verdict.aliasesMutated)
  }

  lemma CleanDeploymentSucceedsExactly(q: Request, containers: map<string, Container>, fails: nat -> bool, start: nat)
    requires forall i | i >= start :: !fails(i)
    ensures CleanVerdict(q, containers, Decision(q, containers, fails, start))
  {
    hide Issued, Probed, Verified, RetargetsRollback, AsAskedFor;
    VerifiedAsAskedFor(q);
    var from := StopAt(q, start) + 2 + SetupCount(q);
    assert q.healthAttempts >= 1 ==> !fails(from);
  }

  /** What a deployment that succeeded leaves live, in the fields of the container. */
  ghost predicate LiveAsAskedFor(q: Request, containers: map<string, Container>)
  {
    && q.live in containers
    && var c := containers[q.live];
       && c.running
       && c.image == q.candidateId
       && c.labelRevision == q.sourceRevision
       && (c.envRevision == None || c.envRevision == Some(q.sourceRevision))
       && (q.harden ==> c.hardened)
  }

  lemma SuccessIsAsAskedFor(q: Request, before: map<string, Container>, fails: nat -> bool, start: nat)
    requires Decision(q, before, fails, start).Deployed?
    ensures q.live in before
    ensures LiveAsAskedFor(q, Swapped(before, q)[q.live := Started(q.blueprint)])
  {
    hide Renames, AllFine, SomeFine, ReplaceEnd;
  }

  class Docker {
    var containers: map<string, Container>
    var tags: map<string, string>
    /** Commands issued so far, and which of them fail for outside reasons. */
    var issued: nat
    const fails: nat -> bool

    constructor (containers: map<string, Container>, tags: map<string, string>, fails: nat -> bool)
      ensures this.containers == containers && this.tags == tags && this.issued == 0 && this.fails == fails
    {
      this.containers, this.tags, this.issued, this.fails := containers, tags, 0, fails;
    }

    /** No command from the n-th on, of those issued by now, failed. */
    ghost predicate NoFailureSince(n: nat)
      reads this
    {
      forall i | n <= i < issued :: !fails(i)
    }

    method Attempt() returns (ok: bool)
      modifies this`issued
      ensures issued == old(issued) + 1 && ok == !fails(old(issued))
    {
      ok := !fails(issued);
      issued := issued + 1;
    }

    method Stop(name: string) returns (ok: bool)
      modifies this`containers, this`issued
      ensures issued == old(issued) + 1
      ensures ok <==> name in old(containers) && !fails(old(issued))
      ensures containers == if ok then old(containers)[name := Stopped(old(containers)[name])] else old(containers)
    {
      ok := Attempt();
      ok := ok && name in containers;
      if ok { containers := containers[name := Stopped(containers[name])]; }
    }

    method Start(name: string) returns (ok: bool)
      modifies this`containers, this`issued
      ensures issued == old(issued) + 1
      ensures ok <==> name in old(containers) && !fails(old(issued))
      ensures containers == if ok then old(containers)[name := Started(old(containers)[name])] else old(containers)
    {
      ok := Attempt();
      ok := ok && name in containers;
      if ok { containers := containers[name := Started(containers[name])]; }
    }

    method Rename(from: string, to: string) returns (ok: bool)
      modifies this`containers, this`issued
      ensures issued == old(issued) + 1
      ensures ok <==> from in old(containers) && to !in old(containers) && !fails(old(issued))
      ensures containers == if ok then (old(containers) - {from})[to := old(containers)[from]] else old(containers)
    {
      ok := Attempt();
      ok := ok && from in containers && to !in containers;
      if ok { containers := (containers - {from})[to := containers[from]]; }
    }

    method Create(name: string, c: Container) returns (ok: bool)
      modifies this`containers, this`issued
      ensures issued == old(issued) + 1
      ensures ok <==> name !in old(containers) && !fails(old(issued))
      ensures containers == if ok then old(containers)[name := Stopped(c)] else old(containers)
    {
      ok := Attempt();
      ok := ok && name !in containers;
      if ok { containers := containers[name := Stopped(c)]; }
    }

    method RemoveForced(name: string)
      modifies this`containers, this`issued
      ensures issued == old(issued) + 1
      ensures containers == if !fails(old(issued)) then old(containers) - {name} else old(containers)
    {
      var ok := Attempt();
      if ok { containers := containers - {name}; }
    }

    method Tag(image: string, tag: string) returns (ok: bool)
      modifies this`tags, this`issued
      ensures issued == old(issued) + 1 && ok == !fails(old(issued))
      ensures tags == if ok then old(tags)[tag := image] else old(tags)
    {
      ok := Attempt();
      if ok { tags := tags[tag := image]; }
    }

    method Untag(tag: string)
      modifies this`tags, this`issued
      ensures issued == old(issued) + 1
      ensures tags == if !fails(old(issued)) then old(tags) - {tag} else old(tags)
    {
      var ok := Attempt();
      if ok { tags := tags - {tag}; }
    }

    /** Read back a tag; a failing or empty answer is an error. */
    method ImageId(tag: string) returns (id: Option<string>)
      modifies this`issued
      ensures issued == old(issued) + 1
      ensures id == if tag in tags && !fails(old(issued)) then Some(tags[tag]) else None
    {
      var ok := Attempt();
      id := if ok && tag in tags then Some(tags[tag]) else None;
    }

    // ----- Image aliases -----

    /** Point every promoted tag at the candidate. */
    method Retag(q: Request) returns (ok: bool)
      modifies this`tags, this`issued
      ensures issued == Issued(fails, old(issued), old(issued) + |q.promoteTags|)
      ensures ok <==> AllFine(fails, old(issued), old(issued) + |q.promoteTags|)
      ensures ok ==> tags == old(tags) + map t | t in q.promoteTags :: q.candidateId
      ensures SameOutside(tags, old(tags), set t | t in q.promoteTags)
    {
      var i := 0;
      while i < |q.promoteTags|
        invariant 0 <= i <= |q.promoteTags| && issued == old(issued) + i && AllFine(fails, old(issued), issued)
        invariant tags == old(tags) + map t | t in q.promoteTags[..i] :: q.candidateId
      {
        assert q.promoteTags[..i + 1] == q.promoteTags[..i] + [q.promoteTags[i]];
        ok := Tag(q.candidateId, q.promoteTags[i]);
        if !ok {
          IssuedUpTo(fails, old(issued), issued - 1, old(issued) + |q.promoteTags|);
          return false;
        }
        i := i + 1;
      }
      assert q.promoteTags[..i] == q.promoteTags;
      ok := true;
    }

    /** Read every promoted tag back and compare it. */
    method ReadBack(q: Request) returns (ok: bool)
      requires forall t | t in q.promoteTags :: t in tags && tags[t] == q.candidateId
      modifies this`issued
      ensures issued == Issued(fails, old(issued), old(issued) + |q.promoteTags|)
      ensures ok <==> AllFine(fails, old(issued), old(issued) + |q.promoteTags|)
    {
      var i := 0;
      while i < |q.promoteTags|
        invariant 0 <= i <= |q.promoteTags| && issued == old(issued) + i && AllFine(fails, old(issued), issued)
      {
        var id := ImageId(q.promoteTags[i]);
        if id != Some(q.candidateId) {
          IssuedUpTo(fails, old(issued), issued - 1, old(issued) + |q.promoteTags|);
          return false;
        }
        i := i + 1;
      }
      ok := true;
    }

    /** Retarget the rollback tag and the promoted tags and read them all back: it
        succeeds exactly when no command fails. */
    method Promote(q: Request, previous: string) returns (ok: bool)
      requires !BadTags(q) && q.promoteTags != []
      modifies this`tags, this`issued
      ensures issued == Issued(fails, old(issued), old(issued) + PromoteCount(q, previous))
      ensures ok <==> AllFine(fails, old(issued), old(issued) + PromoteCount(q, previous))
      ensures ok ==> tags == Promoted(old(tags), q, previous)
      ensures SameOutside(tags, old(tags), AliasTags(q))
    {
      hide Issued, AllFine;
      ghost var start, end := issued, issued + PromoteCount(q, previous);
      IssuedNone(fails, start);
      if RetargetsRollback(q, previous) {
        ok := Tag(previous, q.rollbackTag.value);
        OneIssued(fails, start);
        IssuedInSteps(fails, start, start + 1, end);
        if !ok { return false; }
      }
      ghost var tagged := issued;
      IssuedInSteps(fails, start, tagged, end);
      ok := Retag(q);
      IssuedInSteps(fails, tagged, tagged + |q.promoteTags|, end);
      if !ok { return false; }
      assert tags == Promoted(old(tags), q, previous);
      ghost var again := issued;
      ok := ReadBack(q);
      IssuedInSteps(fails, again, again + |q.promoteTags|, end);
      if !ok { return false; }
      if RetargetsRollback(q, previous) {
        ghost var last := issued;
        var id := ImageId(q.rollbackTag.value);
        OneIssued(fails, last);
        if id != Some(previous) { return false; }
      }
      IssuedNone(fails, end);
      ok := true;
    }

    /** Put every tag of the snapshot back; a tag that did not exist is removed. */
    method RestoreAliases(snapshot: seq<(string, Option<string>)>, ghost before: map<string, string>)
      requires forall p | p in snapshot :: Snapshots(p, before)
      requires SameOutside(tags, before, set p | p in snapshot :: p.0)
      modifies this`tags, this`issued
      ensures issued == old(issued) + |snapshot|
      ensures NoFailureSince(old(issued)) ==> tags == before
      ensures SameOutside(tags, old(tags), set p | p in snapshot :: p.0)
    {
      var i := 0;
      assert snapshot[0..] == snapshot;
      while i < |snapshot|
        invariant 0 <= i <= |snapshot| && issued == old(issued) + i
        invariant SameOutside(tags, old(tags), set p | p in snapshot :: p.0)
        invariant NoFailureSince(old(issued)) ==> SameOutside(tags, before, set p | p in snapshot[i..] :: p.0)
      {
        ghost var was, at := tags, issued;
        ghost var names, later := set p | p in snapshot[i..] :: p.0, set p | p in snapshot[i + 1..] :: p.0;
        assert snapshot[i..] == [snapshot[i]] + snapshot[i + 1..];
        assert names == {snapshot[i].0} + later;
        assert Snapshots(snapshot[i], before);
        if snapshot[i].1.Some? {
          var ok := Tag(snapshot[i].1.value, snapshot[i].0);
        } else {
          Untag(snapshot[i].0);
        }
        if NoFailureSince(old(issued)) {
          assert !fails(at);
          OneTagRestored(was, before, snapshot[i], names, later);
        }
        i := i + 1;
      }
      assert (set p | p in snapshot[i..] :: p.0) == {};
      if NoFailureSince(old(issued)) { AgreeEverywhere(tags, before); }
    }

    /** The steps between the preflight and the verdict: which of them end well is decided
        by the commands alone, and so is how far the two maps have moved. */
    method Swap(q: Request, previous: string, ghost before: map<string, Container>)
      returns (ok: bool, renamed: bool, aliasesMutated: bool)
      requires q.live in containers && !BadTags(q) && before == containers
      requires previous == containers[q.live].image
      modifies this`containers, this`tags, this`issued
      ensures issued == SwapEnd(q, before, fails, old(issued))
      ensures ok <==> Succeeds(q, before, fails, old(issued))
      ensures renamed <==> Renames(q, before, fails, old(issued))
      ensures aliasesMutated <==> MovesAliases(q, before, fails, old(issued))
      ensures ok ==> containers == Swapped(before, q)[q.live := Started(q.blueprint)]
      ensures ok ==> tags == if q.promoteTags == [] then old(tags) else Promoted(old(tags), q, previous)
      ensures !renamed ==> containers == if fails(old(issued)) then before else before[q.live := Stopped(before[q.live])]
      ensures renamed ==> containers - {q.live} == Swapped(before, q)
      ensures !aliasesMutated ==> tags == old(tags)
      ensures SameOutside(tags, old(tags), AliasTags(q))
    {
      hide Issued, Probed, AllFine, SomeFine, Verified, AliasTags, AliasList, Promoted, PromoteCount;
      renamed, aliasesMutated := false, false;
      ok := Stop(q.live);
      if !ok { return; }
      ok := Rename(q.live, q.rollback);
      if !ok { return; }
      renamed := true;
      assert containers == Swapped(before, q);
      ok := Replace(q);
      if !ok { return; }
      if q.promoteTags != [] {
        aliasesMutated := true;
        ok := Promote(q, previous);
      } else {
        NothingToPromote(q, previous, fails, issued);
      }
    }

    /** Create, connect, start, verify and probe the replacement under the free live name. */
    method Replace(q: Request) returns (ok: bool)
      requires q.live !in containers
      modifies this`containers, this`issued
      ensures issued == ReplaceEnd(q, fails, old(issued))
      ensures ok <==> Replaces(q, fails, old(issued))
      ensures ok ==> containers == old(containers)[q.live := Started(q.blueprint)]
      ensures containers - {q.live} == old(containers)
    {
      hide Probed, SomeFine;
      ghost var start, to := issued, issued + SetupCount(q);
      ok := Create(q.live, q.blueprint);
      if !ok { IssuedUpTo(fails, start, start, to); return; }
      ghost var created := containers;
      var i := 0;
      while i < |q.networks|
        invariant 0 <= i <= |q.networks| && issued == start + 1 + i && AllFine(fails, start, issued)
        invariant containers == created
      {
        ok := Attempt();
        if !ok { IssuedUpTo(fails, start, issued - 1, to); return; }
        i := i + 1;
      }
      ok := Start(q.live);
      if !ok { IssuedUpTo(fails, start, issued - 1, to); return; }
      var inspected := Attempt();
      if !inspected { IssuedUpTo(fails, start, issued - 1, to); return false; }
      assert AllFine(fails, start, to);
      if !Verified(containers[q.live], q) { return false; }
      ok := Health(q.healthAttempts);
    }

    /** At most the given number of probes, until one succeeds. */
    method Health(attempts: int) returns (ok: bool)
      modifies this`issued
      ensures issued == Probed(fails, old(issued), attempts)
      ensures ok <==> SomeFine(fails, old(issued), attempts)
    {
      var attempt := 1;
      while attempt <= attempts
        invariant 1 <= attempt && issued == old(issued) + attempt - 1
        invariant attempts >= 0 ==> attempt <= attempts + 1
        invariant Probed(fails, old(issued), attempts) == Probed(fails, issued, attempts - attempt + 1)
        invariant forall i | old(issued) <= i < issued :: fails(i)
      {
        ok := Attempt();
        if ok { return; }
        attempt := attempt + 1;
      }
      ok := false;
    }

    /** Whether a container can be inspected; a failing command reads as absence. */
    method Exists(name: string) returns (found: bool)
      modifies this`issued
      ensures issued == old(issued) + 1
      ensures found <==> name in containers && !fails(old(issued))
    {
      found := Attempt();
      found := found && name in containers;
    }

    /** One deployment. The commands that fail decide the verdict. When it succeeds, the
        live name runs the verified candidate and the rollback name holds the original.
        When it fails and no compensating command does: after a rename, the containers are
        as before with the original running under the live name; before the rename, the
        original is gone; the tags are as before, except that a moved tag that could not
        be read beforehand is gone. Whatever fails, a renamed original is never lost, and
        no other container or tag is touched. */
    method Deploy(q: Request) returns (verdict: Verdict)
      requires Parsed(q)
      modifies this`containers, this`tags, this`issued
      ensures verdict == Decision(q, old(containers), fails, old(issued))
      ensures verdict.Refused? || verdict.PreflightPassed? ==> containers == old(containers) && tags == old(tags)
      ensures verdict.Deployed? ==>
                && q.live in old(containers)
                && containers == Swapped(old(containers), q)[q.live := Started(q.blueprint)]
                && tags == if q.promoteTags == [] then old(tags) else Promoted(old(tags), q, old(containers)[q.live].image)
      ensures verdict.Deployed? ==> LiveAsAskedFor(q, containers)
      ensures (forall i | i >= old(issued) :: !fails(i)) ==>
                && CleanVerdict(q, old(containers), verdict)
                && (verdict.Failed? ==>
                      q.live in old(containers) && containers == old(containers)[q.live := Started(old(containers)[q.live])])
      ensures verdict.Failed? ==>
                && q.live in old(containers)
                && issued == verdict.at + CompensationCount(q, verdict.renamed, verdict.aliasesMutated)
      ensures verdict.Failed? && AllFine(fails, verdict.at, issued) ==>
                && tags == (if verdict.aliasesMutated then old(tags) - Unread(q, fails, old(issued)) else old(tags))
                && containers == Aftermath(q, old(containers), verdict.renamed)
      ensures verdict.Failed? && verdict.renamed ==> Survives(q, old(containers), containers)
      ensures Untouched(q, containers, old(containers))
      ensures SameOutside(tags, old(tags), AliasTags(q))
    {
      hide Decision, Refuses, Succeeds, SwapEnd, MovesAliases, Renames, AliasList, AliasTags, Verified, Promoted, Unread,
        Untouched, Survives, Swapped, Aftermath, Snapshots, Parsed, BadTags, LiveAsAskedFor, CleanVerdict;
      ghost var before, beforeTags, start := containers, tags, issued;
      Unmoved(q, containers, tags);
      CleanFailureRestores(q, before, fails, start);
      var refused, snapshot := Examine(q);
      Decide(q, before, fails, start);
      if refused { return Refused; }
      if q.preflight { return PreflightPassed; }
      ghost var stop := issued;
      var ok, renamed, aliasesMutated := Swap(q, containers[q.live].image, before);
      if ok {
        SuccessIsAsAskedFor(q, before, fails, start);
        SwapTouchesTwoNames(q, before, Started(q.blueprint));
        return Deployed;
      }
      var at := issued;
      if renamed { RenameNeedsFreeName(q, before, fails, stop); }
      Compensate(q, snapshot, renamed, aliasesMutated, before, beforeTags, Unread(q, fails, start));
      verdict := Failed(renamed, aliasesMutated, at);
    }

    /** Everything that is read before anything is changed: the alias tags, both names, the
        candidate image and the original's configuration. */
    method Examine(q: Request) returns (refused: bool, snapshot: seq<(string, Option<string>)>)
      requires Parsed(q)
      modifies this`issued
      ensures refused <==> Refuses(q, containers, fails, old(issued))
      ensures !refused ==>
                && !BadTags(q) && q.live in containers && issued == StopAt(q, old(issued))
                && (forall p | p in snapshot :: Snapshots(p, tags - Unread(q, fails, old(issued))))
                && (set p | p in snapshot :: p.0) == AliasTags(q) && |snapshot| == |AliasList(q)|
                && Unread(q, fails, old(issued)) <= AliasTags(q)
    {
      hide AliasList, AliasTags, Unread, Snapshots, Parsed, BadTags;
      snapshot := [];
      if BadTags(q) { return true, []; }
      snapshot := SnapshotAliases(q);
      var live := Exists(q.live);
      if !live { return true, snapshot; }
      var taken := Exists(q.rollback);
      if taken { return true, snapshot; }
      var candidate := Attempt();
      if !candidate { return true, snapshot; }
      var command := Attempt();
      refused := !command;
    }

    /** Undo what a failed swap has done, without looking whether the undoing succeeds. */
    method Compensate(q: Request, snapshot: seq<(string, Option<string>)>, renamed: bool, aliasesMutated: bool,
                      ghost before: map<string, Container>, ghost beforeTags: map<string, string>,
                      ghost unread: set<string>)
      requires q.live in before && (renamed ==> q.rollback !in before)
      requires containers - {q.live} == if renamed then Swapped(before, q) else before - {q.live}
      requires SameOutside(tags, beforeTags, AliasTags(q)) && (!aliasesMutated ==> tags == beforeTags)
      requires unread <= AliasTags(q) && |snapshot| == |AliasList(q)|
      requires (set p | p in snapshot :: p.0) == AliasTags(q)
      requires forall p | p in snapshot :: Snapshots(p, beforeTags - unread)
      modifies this`containers, this`tags, this`issued
      ensures issued == old(issued) + CompensationCount(q, renamed, aliasesMutated)
      ensures AllFine(fails, old(issued), issued) ==>
                && tags == (if aliasesMutated then beforeTags - unread else beforeTags)
                && containers == Aftermath(q, before, renamed)
      ensures renamed ==> Survives(q, before, containers)
      ensures Untouched(q, containers, before)
      ensures SameOutside(tags, beforeTags, AliasTags(q))
    {
      hide AliasList, AliasTags;
      ghost var at := issued;
      if aliasesMutated {
        UnreadIsOutside(tags, beforeTags, unread, AliasTags(q));
        ghost var moved := tags;
        RestoreAliases(snapshot, beforeTags - unread);
        OutsideTwice(tags, moved, beforeTags, AliasTags(q));
      }
      Undo(q, renamed, before);
    }

    /** Remove the replacement and, after a rename, bring the original back. */
    method Undo(q: Request, renamed: bool, ghost before: map<string, Container>)
      requires q.live in before && (renamed ==> q.rollback !in before)
      requires containers - {q.live} == if renamed then Swapped(before, q) else before - {q.live}
      modifies this`containers, this`issued
      ensures issued == old(issued) + if renamed then 3 else 1
      ensures AllFine(fails, old(issued), issued) ==> containers == Aftermath(q, before, renamed)
      ensures renamed ==> Survives(q, before, containers)
      ensures Untouched(q, containers, before)
    {
      ghost var step := issued;
      ghost var failed := containers;
      assert forall name | name != q.live :: name in failed <==> name in failed - {q.live};
      RemoveForced(q.live);
      if renamed {
        assert q.rollback in failed - {q.live} && failed[q.rollback] == Stopped(before[q.live]);
        var back := Rename(q.rollback, q.live);
        var up := Start(q.live);
        if AllFine(fails, step, issued) {
          assert !fails(step) && !fails(step + 1) && !fails(step + 2);
          SwapUndone(before, q, containers);
        }
      } else if AllFine(fails, step, issued) {
        assert !fails(step);
      }
    }

    /** Read every alias tag; a tag that cannot be read is recorded as absent. */
    method SnapshotAliases(q: Request) returns (snapshot: seq<(string, Option<string>)>)
      requires Parsed(q) && !BadTags(q)
      modifies this`issued
      ensures issued == old(issued) + |AliasList(q)|
      ensures forall p | p in snapshot :: Snapshots(p, tags - Unread(q, fails, old(issued)))
      ensures (set p | p in snapshot :: p.0) == AliasTags(q) && |snapshot| == |AliasList(q)|
      ensures Unread(q, fails, old(issued)) <= AliasTags(q)
    {
      snapshot := [];
      var list := AliasList(q);
      var i := 0;
      while i < |list|
        invariant 0 <= i <= |list| && |snapshot| == i && issued == old(issued) + i
        invariant forall k | 0 <= k < i ::
          snapshot[k] == (list[k], if list[k] in tags && !fails(old(issued) + k) then Some(tags[list[k]]) else None)
      {
        var ok := Attempt();
        snapshot := snapshot + [(list[i], if ok && list[i] in tags then Some(tags[list[i]]) else None)];
        i := i + 1;
      }
      forall k | 0 <= k < |list| ensures Snapshots(snapshot[k], tags - Unread(q, fails, old(issued))) {
        assert list[k] in Unread(q, fails, old(issued)) <==> fails(old(issued) + k) by { ReadOnce(q, old(issued), k); }
      }
      assert (set p | p in snapshot :: p.0) == AliasTags(q) by {
        forall t ensures t in (set p | p in snapshot :: p.0) <==> t in list {
          if t in list {
            var k :| 0 <= k < |list| && list[k] == t;
            assert snapshot[k] in snapshot;
          }
        }
      }
    }

    lemma ReadOnce(q: Request, start: nat, k: nat)
      requires Parsed(q) && !BadTags(q) && k < |AliasList(q)|
      ensures AliasList(q)[k] in Unread(q, fails, start) <==> fails(start + k)
    {
      var list := AliasList(q);
      assert forall i, j | 0 <= i < j < |list| :: list[i] != list[j];
    }
  }

  lemma Unmoved(q: Request, containers: map<string, Container>, tags: map<string, string>)
    ensures Untouched(q, containers, containers) && SameOutside(tags, tags, AliasTags(q))
  {
  }

  lemma Decide(q: Request, containers: map<string, Container>, fails: nat -> bool, start: nat)
    ensures var d, stop := Decision(q, containers, fails, start), StopAt(q, start);
            && (Refuses(q, containers, fails, start) ==> d == Refused)
            && (!Refuses(q, containers, fails, start) ==>
                  && q.live in containers
                  && d == if q.preflight then PreflightPassed
                          else if Succeeds(q, containers, fails, stop) then Deployed
                          else Failed(Renames(q, containers, fails, stop), MovesAliases(q, containers, fails, stop),
                                      SwapEnd(q, containers, fails, stop)))
  {
    hide Succeeds, Renames, MovesAliases, SwapEnd;
  }

  lemma CleanFailureRestores(q: Request, containers: map<string, Container>, fails: nat -> bool, start: nat)
    ensures var d := Decision(q, containers, fails, start);
            (forall i | i >= start :: !fails(i)) ==>
              && CleanVerdict(q, containers, d)
              && (d.Failed? ==>
                    && q.live in containers && d.at >= start
                    && (forall n: nat :: AllFine(fails, d.at, n))
                    && Aftermath(q, containers, d.renamed) == containers[q.live := Started(containers[q.live])])
  {
    if forall i | i >= start :: !fails(i) {
      CleanDeploymentSucceedsExactly(q, containers, fails, start);
      SwapEndsLater(q, containers, fails, StopAt(q, start));
      hide Succeeds, Renames, MovesAliases, SwapEnd;
    }
  }

  lemma SwapEndsLater(q: Request, containers: map<string, Container>, fails: nat -> bool, stop: nat)
    ensures q.live in containers ==> SwapEnd(q, containers, fails, stop) >= stop
  {
    hide Renames, Replaces, AllFine;
  }

  lemma RenameNeedsFreeName(q: Request, containers: map<string, Container>, fails: nat -> bool, stop: nat)
    requires Renames(q, containers, fails, stop)
    ensures q.rollback !in containers
  {
  }

  lemma OutsideTwice(a: map<string, string>, b: map<string, string>, c: map<string, string>, s: set<string>)
    requires SameOutside(a, b, s) && SameOutside(b, c, s)
    ensures SameOutside(a, c, s)
  {
    forall t | t !in s ensures AgreeOn(a, c, t) {
      assert AgreeOn(a, b, t) && AgreeOn(b, c, t);
    }
  }

  lemma IssuedNone(fails: nat -> bool, from: nat)
    ensures Issued(fails, from, from) == from && AllFine(fails, from, from)
  {
  }

  lemma OneIssued(fails: nat -> bool, from: nat)
    ensures Issued(fails, from, from + 1) == from + 1 && (AllFine(fails, from, from + 1) <==> !fails(from))
  {
  }

  /** The first failing command is the last one issued. */
  lemma {:induction false} IssuedUpTo(fails: nat -> bool, from: nat, last: nat, to: nat)
    requires from <= last < to && AllFine(fails, from, last) && fails(last)
    ensures Issued(fails, from, to) == last + 1 && !AllFine(fails, from, to)
    decreases last - from
  {
    if from < last {
      assert !fails(from);
      IssuedUpTo(fails, from + 1, last, to);
    }
  }

  /** Issuing in two parts. */
  lemma {:induction false} IssuedInSteps(fails: nat -> bool, from: nat, mid: nat, to: nat)
    requires from <= mid <= to
    ensures AllFine(fails, from, to) <==> AllFine(fails, from, mid) && AllFine(fails, mid, to)
    ensures Issued(fails, from, to)
            == if AllFine(fails, from, mid) then Issued(fails, mid, to) else Issued(fails, from, mid)
    decreases mid - from
  {
    if from < mid {
      IssuedInSteps(fails, from + 1, mid, to);
      assert AllFine(fails, from, mid) <==> !fails(from) && AllFine(fails, from + 1, mid);
      assert AllFine(fails, from, to) <==> !fails(from) && AllFine(fails, from + 1, to);
    }
  }

  lemma NothingToPromote(q: Request, previous: string, fails: nat -> bool, from: nat)
    requires q.promoteTags == []
    ensures Issued(fails, from, from + PromoteCount(q, previous)) == from
    ensures AllFine(fails, from, from + PromoteCount(q, previous))
  {
  }

  lemma UnreadIsOutside(tags: map<string, string>, before: map<string, string>, lost: set<string>, aliases: set<string>)
    requires SameOutside(tags, before, aliases) && lost <= aliases
    ensures SameOutside(tags, before - lost, aliases)
  {
    forall t | t !in aliases ensures AgreeOn(tags, before - lost, t) {
      assert AgreeOn(tags, before, t);
    }
  }

  lemma OneTagRestored(was: map<string, string>, before: map<string, string>, p: (string, Option<string>),
                       names: set<string>, later: set<string>)
    requires SameOutside(was, before, names) && names == {p.0} + later && Snapshots(p, before)
    ensures p.1.Some? ==> SameOutside(was[p.0 := p.1.value], before, later)
    ensures p.1.None? ==> SameOutside(was - {p.0}, before, later)
  {
    var restored := if p.1.Some? then was[p.0 := p.1.value] else was - {p.0};
    forall t | t !in later ensures AgreeOn(restored, before, t) {
      assert t != p.0 ==> AgreeOn(was, before, t);
    }
  }

  lemma SwapUndone(before: map<string, Container>, q: Request, after: map<string, Container>)
    requires q.live in before && q.rollback !in before
    requires var base := (Swapped(before, q) - {q.rollback})[q.live := Stopped(before[q.live])];
             after == base[q.live := Started(base[q.live])]
    ensures after == before[q.live := Started(before[q.live])]
  {
  }

  /** The pair records what the tag pointed to. */
  ghost predicate Snapshots(p: (string, Option<string>), tags: map<string, string>)
  {
    p.1 == if p.0 in tags then Some(tags[p.0]) else None
  }

  /** A deployment in which one single command fails, the rename: nothing is live after it. */
  method FailedRenameRemovesLive() returns (d: Docker, verdict: Verdict)
    ensures fresh(d) && verdict.Failed? && (forall i :: d.fails(i) <==> i == 5)
    ensures d.containers == map[]
  {
    var original := Container("1", "old", true, "r1", None, true);
    var wanted := Container("2", "new", false, "r2", None, true);
    var q := Request("live", "rollback", "new", "r2", wanted, [], false, 1, [], None, false);
    d := new Docker(map["live" := original], map[], i => i == 5);
    verdict := d.Deploy(q);
    assert AliasList(q) == [];
    assert Aftermath(q, map["live" := original], false) == map[];
  }
}
