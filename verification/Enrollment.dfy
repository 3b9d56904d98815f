/**
 Durable enrollments, group membership and one-use liveness grants, kept consistent by two serialized
 operations: a join enrolls one acolyte, a sweep re-checks everyone in the Acolytes group. Any awaited call may
 fail, and a failing write may or may not have taken effect.
 */
module Enrollment {
  import opened Wrappers
  import opened Text
  import Gate = LivenessGate

  datatype Enrolled = Enrolled(inboxId: string, address: string, revision: string)

  datatype Admission = Controller | Liveness | Intro

  datatype Resolution =
    | AssignedHere(revision: string, tentacleAgentId: string, tentacleInboxId: string, enrollment: Admission)
    | AssignedElsewhere(revision: string)
    | RegistryUnavailable

  datatype Join = PlainJoin | LivenessJoin(livenessRequestId: string)

  /** How an awaited write ends; a failure may come before or after its effect. */
  datatype Answer = Done | FailsBefore | FailsAfter

  // ---------------------------------------------------------------- the sorted list of enrollments

  predicate UniqueInboxes(es: seq<Enrolled>) {
    forall i, j :: 0 <= i < j < |es| ==> es[i].inboxId != es[j].inboxId
  }

  function Without(es: seq<Enrolled>, inboxId: string): seq<Enrolled> {
    if es == [] then []
    else (if es[0].inboxId == inboxId then [] else [es[0]]) + Without(es[1..], inboxId)
  }

  function Insert(es: seq<Enrolled>, e: Enrolled): seq<Enrolled> {
    if es == [] || Leq(e.inboxId, es[0].inboxId) then [e] + es else [es[0]] + Insert(es[1..], e)
  }

  function Sorted(es: seq<Enrolled>): seq<Enrolled> {
    if es == [] then [] else Insert(Sorted(es[..|es| - 1]), es[|es| - 1])
  }

  /** The list after one more enrollment: the newest entry of an inbox replaces its older one. */
  function Upsert(es: seq<Enrolled>, e: Enrolled): seq<Enrolled> { Sorted(Without(es, e.inboxId) + [e]) }

  lemma {:induction false} WithoutMembers(es: seq<Enrolled>, inboxId: string)
    requires UniqueInboxes(es)
    ensures forall x :: x in Without(es, inboxId) <==> x in es && x.inboxId != inboxId
    ensures UniqueInboxes(Without(es, inboxId))
  {
    if es != [] {
      WithoutMembers(es[1..], inboxId);
      assert forall x :: x in es <==> x == es[0] || x in es[1..];
      forall x | x in es[1..]
        ensures x.inboxId != es[0].inboxId
      {
        var i :| 0 <= i < |es[1..]| && es[1..][i] == x;
        assert es[i + 1] == x;
      }
    }
  }

  lemma {:induction false} InsertMembers(es: seq<Enrolled>, e: Enrolled)
    requires UniqueInboxes(es) && forall x :: x in es ==> x.inboxId != e.inboxId
    ensures forall x :: x in Insert(es, e) <==> x == e || x in es
    ensures UniqueInboxes(Insert(es, e)) && |Insert(es, e)| == |es| + 1
  {
    if es != [] && !Leq(e.inboxId, es[0].inboxId) {
      InsertMembers(es[1..], e);
      assert forall x :: x in es <==> x == es[0] || x in es[1..];
      forall x | x in es[1..]
        ensures x.inboxId != es[0].inboxId
      {
        var i :| 0 <= i < |es[1..]| && es[1..][i] == x;
        assert es[i + 1] == x;
      }
    }
  }

  lemma {:induction false} SortedMembers(es: seq<Enrolled>)
    requires UniqueInboxes(es)
    ensures forall x :: x in Sorted(es) <==> x in es
    ensures UniqueInboxes(Sorted(es))
  {
    if es != [] {
      var n := |es| - 1;
      SortedMembers(es[..n]);
      forall x | x in es[..n]
        ensures x.inboxId != es[n].inboxId
      {
        var i :| 0 <= i < n && es[i] == x;
      }
      InsertMembers(Sorted(es[..n]), es[n]);
      assert forall x :: x in es <==> x in es[..n] || x == es[n];
    }
  }

  /** One entry per inbox survives every enrollment, and every other inbox keeps its entry. */
  lemma UpsertMembers(es: seq<Enrolled>, e: Enrolled)
    requires UniqueInboxes(es)
    ensures UniqueInboxes(Upsert(es, e))
    ensures forall x :: x in Upsert(es, e) <==> x == e || (x in es && x.inboxId != e.inboxId)
  {
    hide UniqueInboxes, Sorted, Without;
    WithoutMembers(es, e.inboxId);
    AppendUnique(Without(es, e.inboxId), e);
    SortedMembers(Without(es, e.inboxId) + [e]);
  }

  lemma AppendUnique(es: seq<Enrolled>, e: Enrolled)
    requires UniqueInboxes(es) && forall x :: x in es ==> x.inboxId != e.inboxId
    ensures UniqueInboxes(es + [e])
  {
  }

  predicate InOrder(es: seq<Enrolled>) {
    forall i, j :: 0 <= i < j < |es| ==> Leq(es[i].inboxId, es[j].inboxId)
  }

  lemma {:induction false} InsertInOrder(es: seq<Enrolled>, e: Enrolled)
    requires InOrder(es)
    ensures InOrder(Insert(es, e))
    ensures forall x :: x in Insert(es, e) ==> x == e || x in es
  {
    if es != [] {
      if Leq(e.inboxId, es[0].inboxId) {
        forall i | 0 <= i < |es|
          ensures Leq(e.inboxId, es[i].inboxId)
        {
          if i > 0 {
            LeqTransitive(e.inboxId, es[0].inboxId, es[i].inboxId);
          }
        }
      } else {
        InsertInOrder(es[1..], e);
        LeqTotal(e.inboxId, es[0].inboxId);
        forall x | x in Insert(es[1..], e)
          ensures Leq(es[0].inboxId, x.inboxId)
        {
          if x != e {
            var i :| 0 <= i < |es[1..]| && es[1..][i] == x;
            assert es[i + 1] == x;
          }
        }
      }
    }
  }

  lemma {:induction false} SortedIsInOrder(es: seq<Enrolled>)
    ensures InOrder(Sorted(es))
  {
    if es != [] {
      SortedIsInOrder(es[..|es| - 1]);
      InsertInOrder(Sorted(es[..|es| - 1]), es[|es| - 1]);
    }
  }

  function Inboxes(es: seq<Enrolled>): set<string> { set i | 0 <= i < |es| :: es[i].inboxId }

  // ---------------------------------------------------------------- what a sweep decides

  /** The answers of one sweep: fresh addresses by inbox (absent means lost), resolutions by address. */
  datatype Sweep = Sweep(addressOf: string -> Option<string>, resolve: string -> Resolution)

  predicate IsHere(r: Resolution, agentId: string, selfInboxId: string) {
    r.AssignedHere? && r.tentacleAgentId == agentId && r.tentacleInboxId == selfInboxId
  }

  /** The fixed inputs of one sweep. */
  datatype Sweeping = Sweeping(byInbox: map<string, Enrolled>, answers: Sweep, agentId: string, selfInboxId: string)

  /** A member stays only while enrolled, still bound to an address, and not positively assigned elsewhere. */
  predicate Stays(m: string, w: Sweeping) {
    && m in w.byInbox && w.answers.addressOf(m).Some?
    && var r := w.answers.resolve(w.answers.addressOf(m).value);
       r.RegistryUnavailable? || IsHere(r, w.agentId, w.selfInboxId)
  }

  /** What is kept for a member who stays: the old entry while the registry is silent, a fresh one otherwise. */
  function Kept(m: string, w: Sweeping): Enrolled
    requires Stays(m, w)
  {
    var address := w.answers.addressOf(m).value;
    var r := w.answers.resolve(address);
    if r.RegistryUnavailable? then w.byInbox[m] else Enrolled(m, address, r.revision)
  }

  function Retained(members: seq<string>, w: Sweeping): seq<Enrolled> {
    if members == [] then []
    else
      var m := members[|members| - 1];
      Retained(members[..|members| - 1], w) + if m != w.selfInboxId && Stays(m, w) then [Kept(m, w)] else []
  }

  function Removed(members: seq<string>, w: Sweeping): seq<string> {
    if members == [] then []
    else
      var m := members[|members| - 1];
      Removed(members[..|members| - 1], w) + if m != w.selfInboxId && !Stays(m, w) then [m] else []
  }

  /** The group after a sweep: the tentacle itself and everyone who stays. */
  function Remaining(members: seq<string>, w: Sweeping): set<string> {
    set m | m in members && (m == w.selfInboxId || Stays(m, w))
  }

  predicate Distinct(members: seq<string>) {
    forall i, j :: 0 <= i < j < |members| ==> members[i] != members[j]
  }

  /** Each entry is filed under its own inbox. */
  predicate Keyed(byInbox: map<string, Enrolled>) { forall m :: m in byInbox ==> byInbox[m].inboxId == m }

  lemma {:induction false} ByInboxKeys(es: seq<Enrolled>)
    ensures Keyed(ByInbox(es))
  {
    if es != [] {
      ByInboxKeys(es[..|es| - 1]);
    }
  }

  /** One enrollment per member who stays, so the enrolled inboxes are the group without the tentacle. */
  lemma {:induction false} RetainedIsUnique(members: seq<string>, w: Sweeping)
    requires Distinct(members) && Keyed(w.byInbox)
    ensures UniqueInboxes(Retained(members, w))
    ensures Inboxes(Retained(members, w)) == Remaining(members, w) - {w.selfInboxId}
    ensures forall e :: e in Retained(members, w) ==> Stays(e.inboxId, w) && e == Kept(e.inboxId, w)
  {
    if members != [] {
      hide Stays, Kept, Inboxes, IsHere;
      var n := |members| - 1;
      var m, before := members[n], Retained(members[..n], w);
      RetainedIsUnique(members[..n], w);
      assert m !in members[..n];
      assert forall k :: k in members <==> k in members[..n] || k == m;
      if m != w.selfInboxId && Stays(m, w) {
        KeptIsOwn(m, w);
        InboxesAppend(before, Kept(m, w));
        assert m !in Inboxes(before);
      } else {
        assert before + [] == before;
      }
    }
  }

  lemma KeptIsOwn(m: string, w: Sweeping)
    requires Keyed(w.byInbox) && Stays(m, w)
    ensures Kept(m, w).inboxId == m
  {
  }

  lemma InboxesAppend(es: seq<Enrolled>, e: Enrolled)
    ensures Inboxes(es + [e]) == Inboxes(es) + {e.inboxId}
    ensures forall i :: 0 <= i < |es| ==> es[i].inboxId in Inboxes(es)
  {
    forall i | 0 <= i < |es|
      ensures es[i].inboxId in Inboxes(es + [e])
    {
      assert (es + [e])[i] == es[i];
    }
    assert (es + [e])[|es|] == e;
  }

  lemma {:induction false} RemovedIsRest(members: seq<string>, w: Sweeping)
    ensures forall m :: m in Removed(members, w) <==> m in members && m !in Remaining(members, w)
  {
    if members != [] {
      var n := |members| - 1;
      RemovedIsRest(members[..n], w);
      assert forall k :: k in members <==> k in members[..n] || k == members[n];
    }
  }

  lemma {:induction false} KeptIsRetained(members: seq<string>, w: Sweeping, m: string)
    requires m in members && m != w.selfInboxId && Stays(m, w)
    ensures Kept(m, w) in Retained(members, w)
  {
    hide Stays, Kept;
    var n := |members| - 1;
    if m != members[n] {
      KeptIsRetained(members[..n], w, m);
      assert forall e :: e in Retained(members[..n], w) ==> e in Retained(members, w);
    }
  }

  /** The registry assigns this member to this tentacle, at this revision. */
  predicate AssignedTo(m: string, w: Sweeping, revision: string) {
    && w.answers.addressOf(m).Some?
    && exists admission :: w.answers.resolve(w.answers.addressOf(m).value)
                           == AssignedHere(revision, w.agentId, w.selfInboxId, admission)
  }

  /** The registry does not answer for this member. */
  predicate Silent(m: string, w: Sweeping) {
    w.answers.addressOf(m).Some? && w.answers.resolve(w.answers.addressOf(m).value).RegistryUnavailable?
  }

  lemma StaysMeans(m: string, w: Sweeping)
    ensures Stays(m, w) <==> m in w.byInbox && (Silent(m, w) || exists revision :: AssignedTo(m, w, revision))
    ensures Stays(m, w) && Silent(m, w) ==> Kept(m, w) == w.byInbox[m]
    ensures forall revision :: Stays(m, w) && AssignedTo(m, w, revision) ==>
              Kept(m, w) == Enrolled(m, w.answers.addressOf(m).value, revision)
  {
    if Stays(m, w) && !Silent(m, w) {
      var r := w.answers.resolve(w.answers.addressOf(m).value);
      assert r == AssignedHere(r.revision, w.agentId, w.selfInboxId, r.enrollment);
      assert AssignedTo(m, w, r.revision);
    }
  }

  /**
   A sweep judges every member alone, whatever the answers for the others are: who stays keeps exactly one entry, who
   does not is removed and keeps none. An enrolled member with an address stays while the registry is silent, with the
   old entry, or assigns it to this very tentacle, with the new revision.
   */
  lemma EveryMemberIsJudgedAlone(members: seq<string>, w: Sweeping, m: string)
    requires Distinct(members) && Keyed(w.byInbox) && m in members && m != w.selfInboxId
    ensures m in Remaining(members, w) <==> Stays(m, w)
    ensures m in Removed(members, w) <==> !Stays(m, w)
    ensures Stays(m, w) ==> Kept(m, w) in Retained(members, w)
    ensures forall e :: e in Retained(members, w) && e.inboxId == m ==> Stays(m, w) && e == Kept(m, w)
    ensures Stays(m, w) <==> m in w.byInbox && (Silent(m, w) || exists revision :: AssignedTo(m, w, revision))
    ensures forall revision :: m in w.byInbox && AssignedTo(m, w, revision) ==>
              Enrolled(m, w.answers.addressOf(m).value, revision) in Retained(members, w)
    ensures m in w.byInbox && Silent(m, w) ==>
              w.byInbox[m] in Retained(members, w) && m in Remaining(members, w) && m !in Removed(members, w)
  {
    RetainedIsUnique(members, w);
    RemovedIsRest(members, w);
    StaysMeans(m, w);
    hide Stays, IsHere, Silent, AssignedTo;
    if Stays(m, w) {
      KeptIsRetained(members, w, m);
    }
  }

  /** A registry that is silent for everyone removes nobody and changes no enrollment. */
  lemma {:induction false} SilenceChangesNothing(members: seq<string>, w: Sweeping)
    requires forall m :: m in members && m != w.selfInboxId ==> m in w.byInbox && w.answers.addressOf(m).Some?
    requires forall address :: w.answers.resolve(address).RegistryUnavailable?
    ensures Remaining(members, w) == set m | m in members
    ensures forall e :: e in Retained(members, w) <==>
                        exists m :: m in members && m != w.selfInboxId && m in w.byInbox && e == w.byInbox[m]
    ensures Removed(members, w) == []
  {
    if members != [] {
      var n := |members| - 1;
      SilenceChangesNothing(members[..n], w);
      assert forall k :: k in members <==> k in members[..n] || k == members[n];
    }
  }

  function ByInbox(es: seq<Enrolled>): map<string, Enrolled> {
    if es == [] then map[]
    else ByInbox(es[..|es| - 1])[es[|es| - 1].inboxId := es[|es| - 1]]
  }

  lemma {:induction false} ByInboxFinds(es: seq<Enrolled>, m: string)
    requires UniqueInboxes(es)
    ensures m in ByInbox(es) <==> exists i :: 0 <= i < |es| && es[i].inboxId == m
    ensures m in ByInbox(es) ==> ByInbox(es)[m] in es && ByInbox(es)[m].inboxId == m
  {
    if es != [] {
      var n := |es| - 1;
      ByInboxFinds(es[..n], m);
      if i :| 0 <= i < n && es[..n][i].inboxId == m {
        assert es[i].inboxId == m;
      }
      if i :| 0 <= i < |es| && es[i].inboxId == m && es[n].inboxId != m {
        assert es[..n][i].inboxId == m;
      }
    }
  }

  lemma OnlyThatGrantGoes(before: map<string, Gate.Grant>, now: nat, later: nat, key: string,
                          after: map<string, Gate.Grant>)
    requires now <= later
    requires after == Gate.PrunedGrants(Gate.PrunedGrants(before, now), later)
             || after == Gate.PrunedGrants(Gate.PrunedGrants(before, now), later) - {key}
    ensures GrantsShrink(before, after, later, {key})
  {
  }

  /** Whether or not the grant was still there to be consumed, it is gone afterwards. */
  lemma SpentOrExpired(h: seq<Gate.Admission>, before: map<string, Gate.Grant>, now: nat, later: nat, sender: string,
                       address: string, requestId: string, agentId: string, spent: bool,
                       after: map<string, Gate.Grant>)
    requires Gate.GrantsAnswer(h, before) && Gate.GrantsAnswer(h, Gate.PrunedGrants(before, now))
    requires Gate.Covers(before, now, sender, address, requestId, agentId)
    requires spent <==> Gate.Covers(Gate.PrunedGrants(before, now), later, sender, address, requestId, agentId)
    requires after == Gate.PrunedGrants(Gate.PrunedGrants(before, now), later)
                      - if spent then {Gate.Key(sender, requestId)} else {}
    ensures Gate.Key(sender, requestId) in before && Gate.Key(sender, requestId) !in after
  {
    Gate.CoversIsKeyed(h, before, now, sender, address, requestId, agentId);
    Gate.CoversIsKeyed(h, Gate.PrunedGrants(before, now), later, sender, address, requestId, agentId);
    hide Gate.Covers, Gate.GrantsAnswer, Gate.Key;
  }

  lemma ExpiredGrantsGo(before: map<string, Gate.Grant>, now: nat, after: map<string, Gate.Grant>)
    requires after == before || after == Gate.PrunedGrants(before, now)
    ensures GrantsShrink(before, after, now, {})
  {
  }

  lemma LaterIsWeaker(before: map<string, Gate.Grant>, after: map<string, Gate.Grant>, now: nat, later: nat)
    requires GrantsShrink(before, after, now, {}) && now <= later
    ensures GrantsShrink(before, after, later, {})
  {
  }

  /** No grant appears or changes, and only those of `spent` and the expired ones are gone. */
  ghost predicate GrantsShrink(before: map<string, Gate.Grant>, after: map<string, Gate.Grant>, now: nat,
                               spent: set<string>)
  {
    && (forall k :: k in after ==> k in before && after[k] == before[k])
    && (forall k :: k in before && k !in after ==> before[k].expiresAtMs <= now || k in spent)
  }

  // ---------------------------------------------------------------- runs of joins and sweeps

  datatype Operation =
    | Joins(sender: string, address: Option<string>, resolution: Resolution)
    | Sweeps(members: seq<string>, answers: Sweep)

  /** Whatever an operation was told and wherever it stopped: the enrollments are the old ones, or what it decided. */
  ghost predicate Follows(before: seq<Enrolled>, op: Operation, after: seq<Enrolled>, agentId: string, self: string) {
    || after == before
    || (&& op.Joins? && op.address.Some? && IsHere(op.resolution, agentId, self)
        && after == Upsert(before, Enrolled(op.sender, op.address.value, op.resolution.revision)))
    || (&& op.Sweeps? && Distinct(op.members)
        && after == Retained(op.members, Sweeping(ByInbox(before), op.answers, agentId, self)))
  }

  /** The operation was positively told that this is assigned here, at this address and revision. */
  predicate Assigns(op: Operation, e: Enrolled, agentId: string, self: string) {
    match op
    case Joins(sender, address, resolution) =>
      && resolution.AssignedHere? && resolution.tentacleAgentId == agentId && resolution.tentacleInboxId == self
      && sender == e.inboxId && address == Some(e.address)
      && resolution.revision == e.revision
    case Sweeps(members, answers) =>
      && e.inboxId in members && answers.addressOf(e.inboxId) == Some(e.address)
      && var r := answers.resolve(e.address);
         r.AssignedHere? && r.tentacleAgentId == agentId && r.tentacleInboxId == self && r.revision == e.revision
  }

  lemma StepAssigns(before: seq<Enrolled>, op: Operation, after: seq<Enrolled>, agentId: string, self: string)
    requires UniqueInboxes(before) && Follows(before, op, after, agentId, self)
    ensures UniqueInboxes(after)
    ensures forall e :: e in after ==> e in before || Assigns(op, e, agentId, self)
  {
    hide UniqueInboxes, Distinct, ByInbox, Upsert;
    if after != before {
      if op.Joins? {
        UpsertMembers(before, Enrolled(op.sender, op.address.value, op.resolution.revision));
      } else {
        var w := Sweeping(ByInbox(before), op.answers, agentId, self);
        ByInboxKeys(before);
        RetainedIsUnique(op.members, w);
        forall e | e in after
          ensures e in before || Assigns(op, e, agentId, self)
        {
          RetainedMembers(op.members, w, e);
          ByInboxFinds(before, e.inboxId);
        }
      }
    }
  }

  lemma {:induction false} RetainedMembers(members: seq<string>, w: Sweeping, e: Enrolled)
    requires e in Retained(members, w) && Keyed(w.byInbox)
    ensures e.inboxId in members
  {
    hide Stays, Kept;
    var n := |members| - 1;
    if e in Retained(members[..n], w) {
      RetainedMembers(members[..n], w, e);
    } else {
      KeptIsOwn(members[n], w);
    }
  }

  /**
   Over any run of joins and sweeps, wherever each of them stops: there is one enrollment per inbox, and every one of
   them was positively assigned here, with this address and revision, by what some operation of the run was told.
   */
  lemma {:induction false} EnrolledWereAssigned(trace: seq<seq<Enrolled>>, ops: seq<Operation>, agentId: string,
                                               self: string)
    requires |trace| == |ops| + 1 && trace[0] == []
    requires forall i :: 0 <= i < |ops| ==> Follows(trace[i], ops[i], trace[i + 1], agentId, self)
    ensures UniqueInboxes(trace[|ops|])
    ensures forall e :: e in trace[|ops|] ==> exists i :: 0 <= i < |ops| && Assigns(ops[i], e, agentId, self)
  {
    if ops != [] {
      hide Follows, Assigns, UniqueInboxes;
      var n := |ops| - 1;
      EnrolledWereAssigned(trace[..n + 1], ops[..n], agentId, self);
      StepAssigns(trace[n], ops[n], trace[n + 1], agentId, self);
      var last := trace[n + 1];
      forall e | e in last
        ensures exists i :: 0 <= i < |ops| && Assigns(ops[i], e, agentId, self)
      {
        if e in trace[n] {
          var i :| 0 <= i < n && Assigns(ops[..n][i], e, agentId, self);
          assert Assigns(ops[i], e, agentId, self);
        }
      }
    }
  }

  lemma ShrinkingFollows(before: map<string, Gate.Grant>, e: GrantEvent, after: map<string, Gate.Grant>, now: nat,
                         spent: set<string>)
    requires GrantsShrink(before, after, now, spent)
    requires e.JoinDone? && e.onlyByGrant ==>
               && e.join.LivenessJoin? && Gate.Key(e.sender, e.join.livenessRequestId) in before
               && Gate.Key(e.sender, e.join.livenessRequestId) !in after
    ensures GrantsFollow(before, e, after)
  {
  }

  // ---------------------------------------------------------------- the service

  datatype EnrollPlan = EnrollPlan(
    load: bool,
    directRetention: bool,
    acolytesGroup: bool,
    groupIdSave: Answer,
    globalGroup: bool,
    acolytesMembers: bool,
    acolytesAdd: Answer,
    globalMembers: bool,
    globalAdd: Answer,
    save: Answer)

  datatype SweepPlan = SweepPlan(load: bool, groupAvailable: bool, lookups: bool, remove: Answer, save: Answer)

  datatype EnrollResult = Assigned(revision: string) | NotAssigned | Threw

  /** An enrollment that only a grant could admit. */
  predicate NeedsGrant(es: seq<Enrolled>, sender: string, address: Option<string>, resolution: Resolution) {
    && resolution.AssignedHere? && resolution.enrollment.Liveness?
    && address.Some? && !exists e :: e in es && e.inboxId == sender && e.address == address.value
  }

  // ---------------------------------------------------------------- one enrollment per grant

  /** What happens to the grants: a sweep leaves them alone, a join may spend the one that admits its sender. */
  datatype GrantEvent = SweepDone | JoinDone(sender: string, join: Join, onlyByGrant: bool)

  /** No grant appears; and a join that only a grant could admit had one, and has spent it. */
  ghost predicate GrantsFollow(before: map<string, Gate.Grant>, e: GrantEvent, after: map<string, Gate.Grant>) {
    && (forall k :: k in after ==> k in before && after[k] == before[k])
    && (e.JoinDone? && e.onlyByGrant ==>
          && e.join.LivenessJoin?
          && Gate.Key(e.sender, e.join.livenessRequestId) in before
          && Gate.Key(e.sender, e.join.livenessRequestId) !in after)
  }

  lemma {:induction false} SpentStaysSpent(trace: seq<map<string, Gate.Grant>>, events: seq<GrantEvent>, i: nat, j: nat,
                                          key: string)
    requires |trace| == |events| + 1 && i <= j <= |events| && key !in trace[i]
    requires forall k :: 0 <= k < |events| ==> GrantsFollow(trace[k], events[k], trace[k + 1])
    ensures key !in trace[j]
    decreases j
  {
    if i < j {
      SpentStaysSpent(trace, events, i, j - 1, key);
      assert GrantsFollow(trace[j - 1], events[j - 1], trace[j]);
    }
  }

  /** Over any run of joins and sweeps, no grant admits two enrollments that needed one. */
  lemma OneEnrollmentPerGrant(trace: seq<map<string, Gate.Grant>>, events: seq<GrantEvent>, i: nat, j: nat)
    requires |trace| == |events| + 1 && i < j < |events|
    requires forall k :: 0 <= k < |events| ==> GrantsFollow(trace[k], events[k], trace[k + 1])
    requires events[i].JoinDone? && events[i].onlyByGrant && events[j].JoinDone? && events[j].onlyByGrant
    ensures events[i].join.LivenessJoin? && events[j].join.LivenessJoin?
    ensures events[i].sender != events[j].sender
            || events[i].join.livenessRequestId != events[j].join.livenessRequestId
  {
    assert GrantsFollow(trace[i], events[i], trace[i + 1]) && GrantsFollow(trace[j], events[j], trace[j + 1]);
    SpentStaysSpent(trace, events, i + 1, j, Gate.Key(events[i].sender, events[i].join.livenessRequestId));
  }

  class ChatControlService {
    const selfInboxId: string
    const tentacleAgentId: string
    const globalConfig: string
    const gate: Gate.LivenessControlGate

    /** The durable state. */
    var enrollments: seq<Enrolled>
    var acolytesGroupId: Option<string>
    var globalGroupId: Option<string>

    /** The members of the two groups; others may join or leave between two operations. */
    var acolytes: set<string>
    var global: set<string>

    ghost predicate Valid()
      reads this, gate
    {
      gate.Valid() && UniqueInboxes(enrollments)
    }

    constructor (selfInboxId: string, tentacleAgentId: string, globalConfig: string, gate: Gate.LivenessControlGate)
      requires gate.Valid()
      ensures Valid() && enrollments == [] && this.gate == gate
      ensures this.selfInboxId == selfInboxId && this.tentacleAgentId == tentacleAgentId
    {
      this.selfInboxId, this.tentacleAgentId, this.globalConfig := selfInboxId, tentacleAgentId, globalConfig;
      this.gate := gate;
      enrollments, acolytesGroupId, globalGroupId := [], None, None;
      acolytes, global := {selfInboxId}, {selfInboxId};
    }

    /** Who may be enrolled: an assignment here, through the join that its kind of admission asks for. */
    ghost predicate MayEnroll(nowMs: nat, join: Join, sender: string, address: Option<string>, resolution: Resolution)
      reads this, gate
    {
      && Gate.IsCanonicalId(sender) && address.Some?
      && resolution.AssignedHere? && resolution.tentacleAgentId == tentacleAgentId
      && resolution.tentacleInboxId == selfInboxId
      && if resolution.enrollment != Liveness then join.PlainJoin?
         else
           || (exists e :: e in enrollments && e.inboxId == sender && e.address == address.value)
           || (&& join.LivenessJoin?
               && Gate.Covers(gate.grants, nowMs, sender, address.value, join.livenessRequestId, tentacleAgentId))
    }

    /** Everything that a join waits for is answered as it should be. */
    predicate AllDone(plan: EnrollPlan, sender: string)
      reads this
    {
      && plan.load && plan.directRetention && plan.acolytesGroup && plan.globalGroup
      && plan.acolytesMembers && plan.globalMembers && plan.save.Done?
      && (globalGroupId.Some? ==> globalGroupId.value == globalConfig)
      && (acolytesGroupId.None? ==> plan.groupIdSave.Done?)
      && (sender !in acolytes ==> plan.acolytesAdd.Done?) && (sender !in global ==> plan.globalAdd.Done?)
    }

    method Persisted(sender: string, address: string) returns (found: bool)
      ensures found <==> exists e :: e in enrollments && e.inboxId == sender && e.address == address
    {
      for i := 0 to |enrollments|
        invariant forall k :: 0 <= k < i ==> !(enrollments[k].inboxId == sender && enrollments[k].address == address)
      {
        if enrollments[i].inboxId == sender && enrollments[i].address == address {
          return true;
        }
      }
      return false;
    }

    /** The checks before anything is written; `Some` names the grant that admits the sender. */
    method Admit(nowMs: nat, join: Join, sender: string, address: Option<string>, resolution: Resolution, loads: bool)
      returns (verdict: Result<Option<string>, EnrollResult>)
      requires Valid() && gate.clock <= nowMs
      modifies gate
      ensures Valid() && gate.admitted == old(gate.admitted) && gate.clock <= nowMs
      ensures gate.grants == old(gate.grants) || gate.grants == Gate.PrunedGrants(old(gate.grants), nowMs)
      ensures verdict.Ok? <==> loads && old(MayEnroll(nowMs, join, sender, address, resolution))
      ensures verdict.Ok? ==>
                address.Some? && resolution.AssignedHere? && IsHere(resolution, tentacleAgentId, selfInboxId)
      ensures verdict.Err? ==> !verdict.error.Assigned?
      ensures verdict.Ok? ==> (verdict.value.Some? <==> old(NeedsGrant(enrollments, sender, address, resolution)))
      ensures verdict.Ok? && verdict.value.Some? ==>
                && join.LivenessJoin? && verdict.value.value == join.livenessRequestId
                && Gate.Covers(old(gate.grants), nowMs, sender, address.value, join.livenessRequestId, tentacleAgentId)
                && gate.grants == Gate.PrunedGrants(old(gate.grants), nowMs)
    {
      hide Gate.Covers, Gate.IsCanonicalId, Gate.LivenessControlGate.Valid, Gate.PrunedGrants;
      if !Gate.IsCanonicalId(sender) || address.None? || !IsHere(resolution, tentacleAgentId, selfInboxId) {
        return Err(NotAssigned);
      }
      if !loads {
        return Err(Threw);
      }
      var persisted := Persisted(sender, address.value);
      if resolution.enrollment == Liveness {
        if persisted {
          return Ok(None);
        }
        if !join.LivenessJoin? {
          return Err(NotAssigned);
        }
        var has := gate.HasGrant(nowMs, sender, address.value, join.livenessRequestId, tentacleAgentId);
        return if has then Ok(Some(join.livenessRequestId)) else Err(NotAssigned);
      }
      return if join.PlainJoin? then Ok(None) else Err(NotAssigned);
    }

    /**
     A join. Whatever fails on the way, the enrollments are the old ones or the old ones with this sender; the
     sender is only ever added when the rules admit it; and a grant is used up only once the enrollment is saved.
     */
    method Enroll(nowMs: nat, laterMs: nat, join: Join, sender: string, address: Option<string>, resolution: Resolution,
                  plan: EnrollPlan) returns (r: EnrollResult)
      requires Valid() && gate.clock <= nowMs <= laterMs
      modifies this`enrollments, this`acolytesGroupId, this`globalGroupId, this`acolytes, this`global, gate
      ensures Valid() && gate.admitted == old(gate.admitted)
      ensures enrollments == old(enrollments)
              || (old(MayEnroll(nowMs, join, sender, address, resolution))
                  && enrollments == Upsert(old(enrollments), Enrolled(sender, address.value, resolution.revision)))
      ensures r.Assigned? <==> old(MayEnroll(nowMs, join, sender, address, resolution)) && old(AllDone(plan, sender))
      ensures r.Assigned? ==>
                && resolution.AssignedHere? && address.Some? && r.revision == resolution.revision
                && enrollments == Upsert(old(enrollments), Enrolled(sender, address.value, resolution.revision))
      ensures var needed := old(NeedsGrant(enrollments, sender, address, resolution));
        GrantsFollow(old(gate.grants), JoinDone(sender, join, r.Assigned? && needed), gate.grants)
      ensures Follows(old(enrollments), Joins(sender, address, resolution), enrollments, tentacleAgentId, selfInboxId)
      ensures !old(MayEnroll(nowMs, join, sender, address, resolution)) ==>
                !r.Assigned? && acolytes == old(acolytes) && global == old(global)
      ensures old(acolytes) <= acolytes <= old(acolytes) + {sender}
      ensures old(global) <= global <= old(global) + {sender}
      ensures r.Assigned? ==>
                && sender in acolytes && sender in global && resolution.AssignedHere?
                && address.Some? && Enrolled(sender, address.value, resolution.revision) in enrollments
      ensures GrantsShrink(old(gate.grants), gate.grants, laterMs, {})
              || (&& join.LivenessJoin? && address.Some? && resolution.AssignedHere?
                  && GrantsShrink(old(gate.grants), gate.grants, laterMs, {Gate.Key(sender, join.livenessRequestId)})
                  && Enrolled(sender, address.value, resolution.revision) in enrollments)
    {
      hide Gate.Key, Gate.Covers, UniqueInboxes, Upsert, Gate.LivenessControlGate.Valid, MayEnroll, Gate.PrunedGrants,
           GrantsShrink, GrantsFollow, NeedsGrant, IsHere, Gate.GrantsAnswer;
      gate.GrantsAreAnswers();
      var verdict := Admit(nowMs, join, sender, address, resolution, plan.load);
      ExpiredGrantsGo(old(gate.grants), nowMs, gate.grants);
      LaterIsWeaker(old(gate.grants), gate.grants, nowMs, laterMs);
      ShrinkingFollows(old(gate.grants), JoinDone(sender, join, false), gate.grants, nowMs, {});
      if verdict.Err? {
        return verdict.error;
      }
      var open := OpenGroups(plan);
      if !open {
        return Threw;
      }
      var added := AddToGroups(sender, plan);
      if !added || plan.save == FailsBefore {
        return Threw;
      }
      var enrollment := Enrolled(sender, address.value, resolution.revision);
      UpsertMembers(enrollments, enrollment);
      globalGroupId, enrollments := Some(globalConfig), Upsert(enrollments, enrollment);
      if plan.save == FailsAfter {
        return Threw;
      }
      if verdict.value.Some? {
        var spent := gate.ConsumeGrant(laterMs, sender, address.value, verdict.value.value, tentacleAgentId);
        SpentOrExpired(gate.admitted, old(gate.grants), nowMs, laterMs, sender, address.value, verdict.value.value,
                       tentacleAgentId, spent, gate.grants);
        OnlyThatGrantGoes(old(gate.grants), nowMs, laterMs, Gate.Key(sender, verdict.value.value), gate.grants);
        ShrinkingFollows(old(gate.grants), JoinDone(sender, join, true), gate.grants, laterMs,
                         {Gate.Key(sender, join.livenessRequestId)});
      }
      return Assigned(resolution.revision);
    }

    /** The retention of the conversation and the two groups, one of which may have to be created and saved. */
    method OpenGroups(plan: EnrollPlan) returns (ok: bool)
      modifies this`acolytesGroupId
      ensures ok <==>
              && plan.directRetention && plan.acolytesGroup && plan.globalGroup
              && (globalGroupId.Some? ==> globalGroupId.value == globalConfig)
              && (old(acolytesGroupId).None? ==> plan.groupIdSave.Done?)
      ensures old(acolytesGroupId).Some? ==> acolytesGroupId == old(acolytesGroupId)
    {
      if !plan.directRetention || (globalGroupId.Some? && globalGroupId.value != globalConfig) || !plan.acolytesGroup {
        return false;
      }
      if acolytesGroupId.None? {
        if plan.groupIdSave != FailsBefore {
          acolytesGroupId := Some("acolytes");
        }
        if plan.groupIdSave != Done {
          return false;
        }
      }
      return plan.globalGroup;
    }

    method AddToGroups(sender: string, plan: EnrollPlan) returns (ok: bool)
      modifies this`acolytes, this`global
      ensures old(acolytes) <= acolytes <= old(acolytes) + {sender}
      ensures old(global) <= global <= old(global) + {sender}
      ensures ok ==> sender in acolytes && sender in global
      ensures ok <==>
              && plan.acolytesMembers && plan.globalMembers
              && (sender !in old(acolytes) ==> plan.acolytesAdd.Done?)
              && (sender !in old(global) ==> plan.globalAdd.Done?)
    {
      if !plan.acolytesMembers {
        return false;
      }
      if sender !in acolytes {
        if plan.acolytesAdd != FailsBefore {
          acolytes := acolytes + {sender};
        }
        if plan.acolytesAdd != Done {
          return false;
        }
      }
      if !plan.globalMembers {
        return false;
      }
      if sender !in global {
        if plan.globalAdd != FailsBefore {
          global := global + {sender};
        }
        if plan.globalAdd != Done {
          return false;
        }
      }
      return true;
    }

    ghost function Rules(sweep: Sweep): Sweeping
      reads this
    {
      Sweeping(ByInbox(enrollments), sweep, tentacleAgentId, selfInboxId)
    }

    /** The loop of a sweep: who has to go, and what is kept for the others. */
    method Decide(members: seq<string>, byInbox: map<string, Enrolled>, sweep: Sweep)
      returns (removed: seq<string>, retained: seq<Enrolled>)
      ensures var w := Sweeping(byInbox, sweep, tentacleAgentId, selfInboxId);
        retained == Retained(members, w) && removed == Removed(members, w)
    {
      ghost var w := Sweeping(byInbox, sweep, tentacleAgentId, selfInboxId);
      removed, retained := [], [];
      for i := 0 to |members|
        invariant retained == Retained(members[..i], w) && removed == Removed(members[..i], w)
      {
        var m := members[i];
        assert members[..i + 1][..i] == members[..i];
        if m != selfInboxId {
          if m !in byInbox || sweep.addressOf(m).None? {
            removed := removed + [m];
          } else {
            var address := sweep.addressOf(m).value;
            var resolution := sweep.resolve(address);
            if resolution.RegistryUnavailable? {
              retained := retained + [byInbox[m]];
            } else if IsHere(resolution, tentacleAgentId, selfInboxId) {
              retained := retained + [Enrolled(m, address, resolution.revision)];
            } else {
              removed := removed + [m];
            }
          }
        }
      }
      assert members[..|members|] == members;
    }

    /**
     A sweep over the members the group reports. Membership is cut before the enrollments are saved; wherever it
     stops, each of the two is either untouched or exactly what the sweep decided.
     */
    method PruneMovedAssignments(members: seq<string>, sweep: Sweep, plan: SweepPlan) returns (r: Option<nat>)
      requires Valid() && Distinct(members) && (forall m :: m in members <==> m in acolytes)
      modifies this`enrollments, this`acolytes
      ensures Valid()
      ensures acolytes == old(acolytes) || acolytes == Remaining(members, old(Rules(sweep)))
      ensures enrollments == old(enrollments)
              || (&& enrollments == Retained(members, old(Rules(sweep)))
                  && acolytes == Remaining(members, old(Rules(sweep))))
      ensures Follows(old(enrollments), Sweeps(members, sweep), enrollments, tentacleAgentId, selfInboxId)
      ensures r.Some? && acolytesGroupId.Some? ==>
                && acolytes == Remaining(members, old(Rules(sweep)))
                && enrollments == Retained(members, old(Rules(sweep)))
                && Inboxes(enrollments) == acolytes - {selfInboxId}
    {
      hide Retained, Removed, Stays, Kept, IsHere, ByInbox, Gate.LivenessControlGate.Valid;
      if !plan.load {
        return None;
      }
      if acolytesGroupId.None? {
        return Some(0);
      }
      if !plan.groupAvailable || !plan.lookups {
        return None;
      }
      ghost var rules := Rules(sweep);
      var removed, retained := Decide(members, ByInbox(enrollments), sweep);
      ByInboxKeys(enrollments);
      RetainedIsUnique(members, rules);
      RemovedIsRest(members, rules);
      if |removed| > 0 {
        if plan.remove != FailsBefore {
          acolytes := set m | m in acolytes && m !in removed;
        }
        if plan.remove != Done {
          return None;
        }
      }
      if plan.save != FailsBefore {
        enrollments := retained;
      }
      if plan.save != Done {
        return None;
      }
      return Some(|removed|);
    }
  }

  // ---------------------------------------------------------------- liveness queries

  datatype LivenessResult = Ignored | Unavailable | TargetMismatch | SenderUnresolved | ResponseSent | ResponseFailed

  lemma PrunedTwice(grants: map<string, Gate.Grant>, now: nat, later: nat)
    requires now <= later
    ensures Gate.PrunedGrants(Gate.PrunedGrants(grants, now), later) == Gate.PrunedGrants(grants, later)
    ensures forall t, k :: k in Gate.PrunedGrants(grants, t) ==>
              k in grants && Gate.PrunedGrants(grants, t)[k] == grants[k]
  {
  }

  /** Some grant of this request, whatever else it says. */
  ghost predicate GrantedFor(grants: map<string, Gate.Grant>, sender: string, requestId: string) {
    Gate.Key(sender, requestId) in grants
  }

  /** An admitted query gets its grant while its deadline is ahead and no grant of that request is alive. */
  ghost predicate Grantable(admitted: seq<Gate.Admission>, grants: map<string, Gate.Grant>, sender: string,
                            query: Gate.Query, admitMs: nat, issueMs: nat)
  {
    && Gate.Admissible(admitted, sender, query, admitMs)
    && Gate.IsCanonicalAgentId(query.targetAgentId) && query.expiresAtNs / Gate.NS_PER_MS > issueMs
    && Gate.Key(sender, query.requestId) !in Gate.PrunedGrants(grants, issueMs)
  }

  /**
   A query for another agent costs nothing; an admitted one is answered only together with a grant for the exact
   sender, address and agent; and a response that could not be sent leaves no grant behind.
   */
  method HandleLivenessQuery(gate: Gate.LivenessControlGate, localAgentId: Option<string>, sender: string,
                             query: Gate.Query, admitMs: nat, address: Option<string>, issueMs: nat, sends: bool)
    returns (r: LivenessResult)
    requires gate.Valid() && gate.clock <= admitMs <= issueMs
    modifies gate
    ensures gate.Valid() && gate.clock <= issueMs
    ensures var local := localAgentId == Some(query.targetAgentId);
      var admits := Gate.Admissible(old(gate.admitted), sender, query, admitMs);
      var grants := Grantable(old(gate.admitted), old(gate.grants), sender, query, admitMs, issueMs);
      r == if localAgentId.None? then Unavailable
           else if !local then TargetMismatch
           else if !admits then Ignored
           else if address.None? then SenderUnresolved
           else if !grants then Ignored
           else if sends then ResponseSent
           else ResponseFailed
    ensures r.Unavailable? || r.TargetMismatch? ==>
              gate.admitted == old(gate.admitted) && gate.grants == old(gate.grants)
    ensures gate.admitted == old(gate.admitted)
            || (Gate.Admissible(old(gate.admitted), sender, query, admitMs)
                && gate.admitted == old(gate.admitted) + [Gate.Admitted(sender, query, admitMs)])
    ensures r.ResponseSent? ==>
              && localAgentId == Some(query.targetAgentId) && address.Some?
              && Gate.Admissible(old(gate.admitted), sender, query, admitMs)
              && Gate.Covers(gate.grants, issueMs, sender, address.value, query.requestId, query.targetAgentId)
    ensures r.ResponseFailed? ==> !GrantedFor(gate.grants, sender, query.requestId)
    ensures !r.ResponseSent? ==>
              forall k :: k in gate.grants ==> k in old(gate.grants) && gate.grants[k] == old(gate.grants[k])
  {
    hide Gate.Key, Gate.Admissible, Gate.LivenessControlGate.Valid, Gate.IsCanonicalId,
         Gate.IsCanonicalAgentId, Gate.Asked, Gate.PrunedGrants, Gate.Since;
    if localAgentId.None? {
      return Unavailable;
    }
    if query.targetAgentId != localAgentId.value {
      return TargetMismatch;
    }
    var admitted := gate.AdmitQuery(admitMs, sender, query);
    PrunedTwice(old(gate.grants), gate.clock, issueMs);
    if !admitted {
      return Ignored;
    }
    if address.None? {
      return SenderUnresolved;
    }
    gate.StillAsked(sender, query, admitMs, issueMs);
    Gate.RefusedAtOnce(old(gate.admitted), sender, query, admitMs);
    var issued := gate.IssueGrant(issueMs, sender, address.value, query, localAgentId.value);
    if !issued {
      return Ignored;
    }
    if !sends {
      gate.RevokeGrant(sender, query.requestId);
      return ResponseFailed;
    }
    assert Gate.Key(sender, query.requestId) in gate.grants;
    return ResponseSent;
  }
}
