/**
 The log file and the ritual as the objects the runtime updates in place. Their methods are proved
 against the functions of the log, ritual and recovery modules, where the properties are stated.
 */
module AwakeningObjects {
  import opened Integers
  import opened Wrappers
  import opened Text
  import opened Nature
  import opened AwakeningAction
  import opened AwakeningLog
  import opened AwakeningRitual

  /** The durable log. A missing file is an empty history. */
  class LogFile {
    const key: string
    const jsonBytes: LogEntry -> nat
    var entries: seq<LogEntry>

    constructor (key: string, jsonBytes: LogEntry -> nat)
      ensures this.key == key && this.jsonBytes == jsonBytes && entries == []
    {
      this.key := key;
      this.jsonBytes := jsonBytes;
      entries := [];
    }

    predicate Readable()
      reads this
    {
      Fits(jsonBytes, entries) && Accepted(key, entries)
    }

    /** `verify_entries`: one pass over the history with running phase, time and identifier sets. */
    method VerifyEntries(history: seq<LogEntry>) returns (ok: bool)
      ensures ok <==> Accepted(key, history)
    {
      hide WellFormedEntry, Chained, TransitionPhase, ValidNatureTransition, Parse;
      var previous: Option<LogEntry> := None;
      var phase := Pending;
      var eventIds: set<string> := {};
      var natureIds: set<string> := {};
      for index := 0 to |history|
        invariant Verify(key, history[..index]) == Some(LogState(index, previous, phase, eventIds, natureIds))
      {
        var entry := history[index];
        assert history[..index + 1] == history[..index] + [entry];
        VerifyAppend(key, history[..index], entry);
        ghost var before := LogState(index, previous, phase, eventIds, natureIds);
        var checked := CheckEntry(index, previous, phase, eventIds, natureIds, entry);
        if !checked {
          if Accepted(key, history) {
            PrefixAccepted(key, history, index + 1);
          }
          return false;
        }
        if previous == None {
          natureIds := natureIds + {entry.body.predecessorNatureId};
        }
        eventIds := eventIds + {entry.body.eventIdSha256};
        natureIds := natureIds + {entry.body.natureId};
        phase := entry.body.phase;
        previous := Some(entry);
      }
      assert history[..|history|] == history;
      ok := true;
    }

    /** The checks one iteration makes before it updates the running values. */
    method CheckEntry(index: nat, previous: Option<LogEntry>, phase: LogPhase, eventIds: set<string>,
                      natureIds: set<string>, entry: LogEntry) returns (ok: bool)
      ensures ok <==> Step(key, LogState(index, previous, phase, eventIds, natureIds), entry).Some?
    {
      hide Parse, WellFormedEntry, Chained;
      var st := LogState(index, previous, phase, eventIds, natureIds);
      if !WellFormedEntry(key, entry) || !Chained(st, entry) {
        return false;
      }
      var action := ActionOf(entry);
      var begins := previous.Some? && entry.body.epoch == previous.value.body.epoch + 1;
      var next := TransitionPhase(phase, action, entry.body.provenance, begins);
      if next.None? || !ValidNatureTransition(entry.body.predecessorNature, entry.body.nature, action, begins) {
        return false;
      }
      var known := if previous == None then natureIds + {entry.body.predecessorNatureId} else natureIds;
      if Rerolls(action) && entry.body.natureId in known {
        return false;
      }
      ok := entry.body.phase == next.value;
    }

    /** The size check of `encode_log`, entry by entry. */
    method EncodedSizeFits(history: seq<LogEntry>) returns (ok: bool)
      ensures ok <==> Fits(jsonBytes, history)
    {
      var length := |AWAKENING_LOG_HEADER|;
      assert history[..0] == [];
      for i := 0 to |history|
        invariant length == EncodedBytes(jsonBytes, history[..i]) && length <= MAX_AWAKENING_LOG_BYTES
      {
        assert history[..i + 1][..i] == history[..i];
        var resulting := length + 3 + jsonBytes(history[i]);
        if resulting > MAX_AWAKENING_LOG_BYTES {
          EncodedBytesMonotone(jsonBytes, history, i + 1);
          return false;
        }
        length := resulting;
      }
      assert history[..|history|] == history;
      ok := true;
    }

    method ReadEntries() returns (r: Option<seq<LogEntry>>)
      ensures r == if Readable() then Some(entries) else None
    {
      var small := EncodedSizeFits(entries);
      var ok := VerifyEntries(entries);
      r := if small && ok then Some(entries) else None;
    }

    /**
     `append`: verify the longer history, then replace the file if it still holds what was read.
     `concurrent` is what another process stores between the two reads; `syncFails` is an error
     reported after the file was already replaced.
     */
    method Append(r: Ritual, p: Proposal, now: nat, actor: Provenance,
                  concurrent: Option<seq<LogEntry>>, syncFails: bool) returns (ok: bool)
      modifies this
      ensures var longer := old(entries) + [NewEntry(key, old(entries), r, p, now, actor)];
        var reached := old(Readable()) && Accepted(key, longer);
        var stored := if reached && concurrent.Some? then concurrent.value else old(entries);
        && (ok <==> reached && stored == old(entries) && Fits(jsonBytes, longer) && !syncFails)
        && entries == (if reached && stored == old(entries) && Fits(jsonBytes, longer) then longer else stored)
    {
      hide Parse, Verify, NewEntry, Fits;
      var before := ReadEntries();
      if before.None? {
        return false;
      }
      var longer := before.value + [NewEntry(key, before.value, r, p, now, actor)];
      var verified := VerifyEntries(longer);
      if !verified {
        return false;
      }
      if concurrent.Some? {
        entries := concurrent.value;
      }
      var again := ReadEntries();
      if again != before {
        return false;
      }
      var small := EncodedSizeFits(longer);
      if !small {
        return false;
      }
      entries := longer;
      ok := !syncFails;
    }
  }

  lemma {:induction false} EncodedBytesMonotone(jsonBytes: LogEntry -> nat, history: seq<LogEntry>, k: nat)
    requires k <= |history|
    ensures EncodedBytes(jsonBytes, history[..k]) <= EncodedBytes(jsonBytes, history)
  {
    if k == |history| {
      assert history[..k] == history;
    } else {
      var init := history[..|history| - 1];
      EncodedBytesMonotone(jsonBytes, init, k);
      assert init[..k] == history[..k];
    }
  }

  /** `from_verified_entries`: rebuild the ritual of the latest epoch with one loop over its entries. */
  method FromVerifiedEntries(nature: TentacleNature, fallbackStartedAt: nat, entries: seq<LogEntry>)
    returns (r: Option<Ritual>)
    ensures r == Replay(nature, fallbackStartedAt, entries)
  {
    hide Parse, ReplayEntry;
    if entries == [] || nature != entries[|entries| - 1].body.nature {
      return None;
    }
    var last := entries[|entries| - 1].body;
    var es := EpochEntries(entries, last.epoch);
    if es == [] {
      return None;
    }
    var startedAt := if last.epoch == 1 then Min(fallbackStartedAt, es[0].body.timestamp) else es[0].body.timestamp;
    var created := NewRitual(nature, startedAt);
    if created.None? {
      return None;
    }
    var ritual := created.value.(epoch := last.epoch, lastEventAt := last.timestamp);
    ghost var base := ritual;
    assert es[..0] == [];
    for i := 0 to |es|
      invariant ReplayAll(base, es[..i]) == Some(ritual)
    {
      assert es[..i + 1] == es[..i] + [es[i]];
      ReplayAllAppend(base, es[..i], es[i]);
      var next := ReplayEntry(ritual, es[i]);
      if next.None? {
        ReplayPrefix(base, es, i + 1);
        return None;
      }
      ritual := next.value;
    }
    assert es[..|es|] == es;
    r := if PhaseFor(ritual.phase) == last.phase then Some(ritual) else None;
  }

  lemma {:induction false} ReplayPrefix(base: Ritual, es: seq<LogEntry>, k: nat)
    requires k <= |es| && ReplayAll(base, es[..k]).None?
    ensures ReplayAll(base, es).None?
  {
    hide ReplayEntry, Parse;
    if k == |es| {
      assert es[..k] == es;
    } else {
      var init := es[..|es| - 1];
      assert init[..k] == es[..k];
      ReplayPrefix(base, init, k);
    }
  }

  /** `AwakeningRitual`: a transition is committed in memory only after the append succeeded. */
  class RitualObject {
    var nature: TentacleNature
    var phase: Phase
    var epoch: nat
    var startedAt: nat
    var lastEventAt: nat
    var adjustmentCount: nat
    var rerollCount: nat

    function Value(): Ritual
      reads this
    {
      Ritual(nature, phase, epoch, startedAt, lastEventAt, adjustmentCount, rerollCount)
    }

    constructor (r: Ritual)
      ensures Value() == r
    {
      nature, phase, epoch := r.nature, r.phase, r.epoch;
      startedAt, lastEventAt := r.startedAt, r.lastEventAt;
      adjustmentCount, rerollCount := r.adjustmentCount, r.rerollCount;
    }

    /** `*self = candidate`. */
    method Become(r: Ritual)
      modifies this
      ensures Value() == r
    {
      nature, phase, epoch := r.nature, r.phase, r.epoch;
      startedAt, lastEventAt := r.startedAt, r.lastEventAt;
      adjustmentCount, rerollCount := r.adjustmentCount, r.rerollCount;
    }

    /** Guards and candidate of a transition; the candidate starts as a copy and is then updated. */
    method Prepare(c: Command, now: nat, actor: Provenance) returns (proposal: Option<Proposal>)
      ensures proposal == Propose(Value(), c, now, actor)
      ensures proposal.Some? <==> Allowed(Value(), c, now, actor)
      ensures proposal.Some? ==>
                proposal.value.recorded == RecordedAs(c) && Follows(Value(), c, now, actor, proposal.value.candidate)
    {
      CommandsAreObeyed(Value(), c, now, actor);
      hide Allowed, Follows, RecordedAs;
      hide Parse, CanonicalActor, IsSha256Text;
      if !actor.Valid() || now < lastEventAt {
        return None;
      }
      var candidate := Value();
      match c {
        case Apply(action, draw) =>
          if phase != AwaitingConfirmation {
            return None;
          }
          match action {
            case Yes => candidate := candidate.(phase := ConfirmedBy(now, actor.operatorId));
            case Kill => candidate := candidate.(phase := KilledBy(now, actor.operatorId));
            case Adjust(t, d) =>
              var adjusted := nature.Adjust(t, d);
              if adjusted.None? || adjustmentCount >= U32_MAX {
                return None;
              }
              candidate := candidate.(nature := adjusted.value);
              candidate := candidate.(adjustmentCount := adjustmentCount + 1);
            case Reroll =>
              var rerolled := nature.Reroll(draw);
              if rerolled.None? || rerollCount >= U32_MAX {
                return None;
              }
              candidate := candidate.(nature := rerolled.value);
              candidate := candidate.(rerollCount := rerollCount + 1);
          }
          candidate := candidate.(lastEventAt := now);
          return Some(Proposal(candidate, Operator(action)));
        case Skip =>
          if phase != AwaitingConfirmation || actor.source != LocalCli {
            return None;
          }
          candidate := candidate.(phase := SkippedBy(now, actor.operatorId));
          candidate := candidate.(lastEventAt := now);
          return Some(Proposal(candidate, RecordedAction.SkipForTesting));
        case AcceptDefaultNature =>
          if phase != AwaitingConfirmation || actor.source != LocalCli {
            return None;
          }
          candidate := candidate.(phase := AcceptedAt(now));
          candidate := candidate.(lastEventAt := now);
          return Some(Proposal(candidate, AcceptDefault));
        case AdjustAfterConfirmation(t, value) =>
          if !(phase.ConfirmedBy? || phase.SkippedBy? || phase.AcceptedAt?) {
            return None;
          }
          var current := nature.Value(t);
          if value > MAX_SLIDER || current == value {
            return None;
          }
          var adjusted := nature.Adjust(t, value - current);
          if adjusted.None? || adjustmentCount >= U32_MAX {
            return None;
          }
          candidate := candidate.(nature := adjusted.value, lastEventAt := now);
          candidate := candidate.(adjustmentCount := adjustmentCount + 1);
          return Some(Proposal(candidate, PostConfirmationAdjust(t, value)));
        case ForceRerollEpoch(draw) =>
          if actor.source != LocalCli || phase == AwaitingConfirmation {
            return None;
          }
          var rerolled := nature.Reroll(draw);
          if rerolled.None? || epoch >= U64_MAX {
            return None;
          }
          candidate := candidate.(nature := rerolled.value, phase := AwaitingConfirmation, epoch := epoch + 1);
          candidate := candidate.(startedAt := now, lastEventAt := now);
          candidate := candidate.(adjustmentCount := 0, rerollCount := 1);
          return Some(Proposal(candidate, ForcedRerollEpoch));
      }
    }

    /**
     Any of the five transitions. It succeeds exactly when the command is allowed and the append succeeds; then
     memory is what the command makes of the ritual, and the log testifies to it. Otherwise memory is unchanged.
     */
    method Transition(c: Command, now: nat, actor: Provenance, log: LogFile,
                      concurrent: Option<seq<LogEntry>>, syncFails: bool) returns (ok: bool)
      modifies this, log
      ensures ok ==> Allowed(old(Value()), c, now, actor) && Follows(old(Value()), c, now, actor, Value())
      ensures ok ==>
                && |log.entries| == |old(log.entries)| + 1 && log.entries[..|old(log.entries)|] == old(log.entries)
                && Testifies(log.entries[|old(log.entries)|].body, old(Value()), c, now, actor, Value())
                && Accepted(log.key, log.entries) && Fits(log.jsonBytes, log.entries)
      ensures !ok ==> Value() == old(Value())
      ensures var proposal := Propose(old(Value()), c, now, actor);
        if proposal.None? then !ok && log.entries == old(log.entries)
        else
          var before := old(log.entries);
          var longer := before + [NewEntry(log.key, before, old(Value()), proposal.value, now, actor)];
          && (ok <==> && old(log.Readable()) && Accepted(log.key, longer) && Fits(log.jsonBytes, longer) && !syncFails
                      && (concurrent.Some? ==> concurrent.value == before))
          && (ok ==> Value() == proposal.value.candidate && log.entries == longer)
      ensures forall started :: ok && old(InSync(log.key, started, log.entries, Value())) ==>
                InSync(log.key, started, log.entries, Value())
    {
      hide Parse, Verify, NewEntry, Fits, Propose, InSync, LogAdmits, Allowed, Follows, Testifies, RecordedAs;
      var proposal := Prepare(c, now, actor);
      if proposal.None? {
        return false;
      }
      ok := log.Append(Value(), proposal.value, now, actor, concurrent, syncFails);
      if ok {
        ghost var before, entries := Value(), old(log.entries);
        EntryTestifies(log.key, entries, before, c, now, actor, proposal.value);
        Become(proposal.value.candidate);
        forall started | InSync(log.key, started, entries, before)
          ensures InSync(log.key, started, log.entries, proposal.value.candidate)
        {
          FittingLogIsShort(log.jsonBytes, log.entries);
          LogAdmitsExactly(log.key, started, entries, before, c, now, actor, proposal.value);
          SimulationStep(log.key, started, entries, before, c, now, actor, proposal.value);
        }
      }
    }
  }
}
