/**
 The crash window between the log append and the save of the Nature file, over whole runs of one
 installation with a crash between any two durable writes.
 */
module AwakeningRecovery {
  import opened Integers
  import opened Wrappers
  import opened Nature
  import opened AwakeningAction
  import opened AwakeningLog
  import opened AwakeningRitual

  datatype Recovery = Recovery(ritual: Ritual, natureRecoveredFromLog: bool)

  /** `resume_or_recover`, given the verified entries; `None` is every refusal. */
  function ResumeOrRecover(key: string, entries: seq<LogEntry>, saved: Option<TentacleNature>,
                           fallbackStartedAt: nat): Option<Recovery> {
    if !Accepted(key, entries) then None
    else if entries == [] then
      match saved
      case None => None
      case Some(nature) =>
        (match NewRitual(nature, fallbackStartedAt)
         case None => None
         case Some(r) => Some(Recovery(r, false)))
    else
      var last := entries[|entries| - 1].body;
      if saved.Some? && (!saved.value.Valid() || (saved.value != last.nature && saved.value != last.predecessorNature))
      then None
      else
        match Replay(last.nature, fallbackStartedAt, entries)
        case None => None
        case Some(r) => Some(Recovery(r, saved != Some(last.nature)))
  }

  // ---------------------------------------------------------------- every accepted log replays

  lemma ReplayEntryEffect(r: Ritual, e: LogEntry)
    requires Parse(e.body.normalizedAction).Some?
    requires r.adjustmentCount < U32_MAX && r.rerollCount < U32_MAX
    ensures ReplayEntry(r, e).Some?
    ensures var q, a := ReplayEntry(r, e).value, ActionOf(e);
      && PhaseFor(q.phase) == (if TerminalAction(a) then PhaseAfter(a) else PhaseFor(r.phase))
      && q.adjustmentCount <= r.adjustmentCount + 1 && q.rerollCount <= r.rerollCount + 1
  {
    hide Parse;
  }

  lemma {:induction false} FormedEpochReplays(base: Ritual, es: seq<LogEntry>, p: nat, epoch: nat)
    requires EpochForm(es, p, epoch) && |es| < U32_MAX
    requires forall i :: 0 <= i < |es| ==> Parse(es[i].body.normalizedAction).Some?
    requires base.phase == AwaitingConfirmation && base.adjustmentCount == base.rerollCount == 0
    ensures ReplayAll(base, es).Some?
    ensures PhaseFor(ReplayAll(base, es).value.phase) == FormPhase(es, p)
  {
    hide Parse, ReplayEntry;
    if es != [] {
      var n := |es| - 1;
      var init, q := es[..n], if p > n then n else p;
      assert EpochForm(init, q, epoch) || n == 0;
      if n > 0 {
        FormedEpochReplays(base, init, q, epoch);
        ReplayKeeps(base, init);
      }
      assert es[n] == es[|es| - 1];
      ReplayEntryEffect(ReplayAll(base, init).value, es[n]);
    }
  }

  lemma {:induction false} AcceptedActionsParse(key: string, entries: seq<LogEntry>, e: LogEntry)
    requires Accepted(key, entries) && e in entries
    ensures Parse(e.body.normalizedAction).Some? && e.body.nature.Valid() && e.body.predecessorNature.Valid()
  {
    hide Parse, Normalize, CanonicalActor, TransitionPhase, ValidNatureTransition;
    var i :| 0 <= i < |entries| && entries[i] == e;
    EntryAccepted(key, entries, i);
  }

  /** Recovery can rebuild a ritual from any accepted log, whoever wrote it. */
  lemma AcceptedLogReplays(key: string, entries: seq<LogEntry>, startedAt: nat)
    requires Accepted(key, entries) && entries != [] && |entries| < U32_MAX
    ensures Replay(entries[|entries| - 1].body.nature, startedAt, entries).Some?
  {
    hide Parse, Verify, ReplayAll, EpochEntries, EpochForm, FormPhase, ReplayEntry;
    AcceptedLogForm(key, entries);
    var last := entries[|entries| - 1];
    var epoch := last.body.epoch;
    assert EpochFormed(entries, epoch, epoch, last.body.phase);
    var es := EpochEntries(entries, epoch);
    var p: nat :| EpochForm(es, p, epoch) && FormPhase(es, p) == last.body.phase;
    LastIsInItsEpoch(entries);
    forall i | 0 <= i < |es|
      ensures Parse(es[i].body.normalizedAction).Some?
    {
      AcceptedActionsParse(key, entries, es[i]);
    }
    AcceptedActionsParse(key, entries, last);
    var since := if epoch == 1 then Min(startedAt, es[0].body.timestamp) else es[0].body.timestamp;
    var base := Ritual(last.body.nature, AwaitingConfirmation, epoch, since, last.body.timestamp, 0, 0);
    FormedEpochReplays(base, es, p, epoch);
  }

  lemma LastIsInItsEpoch(entries: seq<LogEntry>)
    requires entries != []
    ensures EpochEntries(entries, entries[|entries| - 1].body.epoch) != []
  {
  }

  /**
   Exactly when recovery succeeds, for any accepted log and any saved Nature: the saved Nature is
   missing, is the head, or is the head's signed immediate predecessor. The ritual it yields is the
   log's, and a repair is reported exactly when the saved Nature differs from the head.
   */
  lemma RecoveryExactly(key: string, entries: seq<LogEntry>, saved: Option<TentacleNature>, startedAt: nat)
    requires Accepted(key, entries) && entries != [] && |entries| < U32_MAX
    ensures var last := entries[|entries| - 1].body;
            var recovery := ResumeOrRecover(key, entries, saved, startedAt);
      && (recovery.Some? <==> saved == None || saved == Some(last.nature) || saved == Some(last.predecessorNature))
      && (recovery.Some? ==>
            && recovery.value.ritual.nature == last.nature
            && InSync(key, startedAt, entries, recovery.value.ritual)
            && (recovery.value.natureRecoveredFromLog <==> saved != Some(last.nature)))
  {
    hide Parse, Verify, Replay;
    AcceptedLogReplays(key, entries, startedAt);
    AcceptedActionsParse(key, entries, entries[|entries| - 1]);
    InSyncMeaning(key, startedAt, entries,
                  Replay(entries[|entries| - 1].body.nature, startedAt, entries).value);
  }

  // ---------------------------------------------------------------- runs with crashes

  /** One installation: two durable files, and the ritual of the process while one is running. */
  datatype Machine = Machine(
    entries: seq<LogEntry>,
    saved: Option<TentacleNature>,
    process: Option<Process>)

  /** `unsaved` holds from an append (or a reported repair) until the Nature file is saved. */
  datatype Process = Process(ritual: Ritual, startedAt: nat, unsaved: bool)

  datatype Event =
    | Transition(command: Command, now: nat, actor: Provenance)
    | TransitionThenCrash(command: Command, now: nat, actor: Provenance)
    | SaveNature
    | Crash
    | Restart(fallbackStartedAt: nat)
    | LoseNatureFile

  /** The durable effect of a transition: the longer log, or none when a guard or the log refuses. */
  function Appended(key: string, jsonBytes: LogEntry -> nat, entries: seq<LogEntry>, r: Ritual,
                    c: Command, now: nat, actor: Provenance): Option<(seq<LogEntry>, Ritual)> {
    match Propose(r, c, now, actor)
    case None => None
    case Some(p) =>
      var longer := entries + [NewEntry(key, entries, r, p, now, actor)];
      if Accepted(key, longer) && Fits(jsonBytes, longer) then Some((longer, p.candidate)) else None
  }

  function Next(key: string, jsonBytes: LogEntry -> nat, m: Machine, event: Event): Machine {
    match event
    case Transition(c, now, actor) =>
      if m.process.None? || m.process.value.unsaved then m
      else
        (match Appended(key, jsonBytes, m.entries, m.process.value.ritual, c, now, actor)
         case None => m
         case Some((longer, r)) =>
            m.(entries := longer, process := Some(m.process.value.(ritual := r, unsaved := true))))
    case TransitionThenCrash(c, now, actor) =>
      if m.process.None? || m.process.value.unsaved then m
      else
        (match Appended(key, jsonBytes, m.entries, m.process.value.ritual, c, now, actor)
         case None => m.(process := None)
         case Some((longer, _)) => m.(entries := longer, process := None))
    case SaveNature =>
      if m.process.None? then m
      else m.(saved := Some(m.process.value.ritual.nature), process := Some(m.process.value.(unsaved := false)))
    case Crash => m.(process := None)
    case Restart(fallbackStartedAt) =>
      (match ResumeOrRecover(key, m.entries, m.saved, fallbackStartedAt)
       case None => m.(process := None)
       case Some(recovery) =>
         m.(process := Some(Process(recovery.ritual, fallbackStartedAt, recovery.natureRecoveredFromLog))))
    case LoseNatureFile => if m.entries == [] then m else m.(saved := None)
  }

  function Run(key: string, jsonBytes: LogEntry -> nat, m: Machine, events: seq<Event>): Machine {
    if events == [] then m
    else Next(key, jsonBytes, Run(key, jsonBytes, m, events[..|events| - 1]), events[|events| - 1])
  }

  /** The saved Nature is at most one logged transition behind, and a clean process has saved its own. */
  predicate Recoverable(key: string, m: Machine) {
    && Accepted(key, m.entries) && |m.entries| < U32_MAX
    && (match m.saved
        case None => m.entries != []
        case Some(nature) =>
          if m.entries == [] then nature.Valid()
          else
            var last := m.entries[|m.entries| - 1].body;
            nature == last.nature || nature == last.predecessorNature)
    && (match m.process
        case None => true
        case Some(p) =>
          && InSync(key, p.startedAt, m.entries, p.ritual)
          && (!p.unsaved ==> m.saved == None || m.saved == Some(p.ritual.nature)))
  }

  lemma AppendedKeeps(key: string, jsonBytes: LogEntry -> nat, entries: seq<LogEntry>, r: Ritual, c: Command,
                      now: nat, actor: Provenance, startedAt: nat)
    requires InSync(key, startedAt, entries, r) && |entries| < U32_MAX
    requires Appended(key, jsonBytes, entries, r, c, now, actor).Some?
    ensures var (longer, r') := Appended(key, jsonBytes, entries, r, c, now, actor).value;
      && InSync(key, startedAt, longer, r') && |longer| < U32_MAX && |longer| == |entries| + 1
      && entries <= longer
      && longer[|entries|].body.predecessorNature == r.nature
  {
    hide Parse, Verify, Replay, Propose, LogAdmits, Fits;
    var p := Propose(r, c, now, actor).value;
    LogAdmitsExactly(key, startedAt, entries, r, c, now, actor, p);
    SimulationStep(key, startedAt, entries, r, c, now, actor, p);
    FittingLogIsShort(jsonBytes, entries + [NewEntry(key, entries, r, p, now, actor)]);
  }

  lemma TransitionKeeps(key: string, jsonBytes: LogEntry -> nat, m: Machine, event: Event)
    requires Recoverable(key, m) && (event.Transition? || event.TransitionThenCrash?)
    ensures Recoverable(key, Next(key, jsonBytes, m, event))
    ensures m.entries <= Next(key, jsonBytes, m, event).entries
  {
    hide Parse, Verify, Replay, Propose, InSync, Appended;
    if m.process.Some? && !m.process.value.unsaved {
      var p := m.process.value;
      var appended := Appended(key, jsonBytes, m.entries, p.ritual, event.command, event.now, event.actor);
      if appended.Some? {
        AppendedKeeps(key, jsonBytes, m.entries, p.ritual, event.command, event.now, event.actor, p.startedAt);
        InSyncIsAccepted(key, p.startedAt, appended.value.0, appended.value.1);
      }
    }
  }

  lemma RestartKeeps(key: string, jsonBytes: LogEntry -> nat, m: Machine, fallbackStartedAt: nat)
    requires Recoverable(key, m)
    ensures Recoverable(key, Next(key, jsonBytes, m, Restart(fallbackStartedAt)))
    ensures Next(key, jsonBytes, m, Restart(fallbackStartedAt)).process.Some?
  {
    hide Parse, Verify, Replay, Propose;
    if m.entries != [] {
      RecoveryExactly(key, m.entries, m.saved, fallbackStartedAt);
    }
  }

  lemma SaveKeeps(key: string, jsonBytes: LogEntry -> nat, m: Machine)
    requires Recoverable(key, m)
    ensures Recoverable(key, Next(key, jsonBytes, m, SaveNature))
  {
    hide Parse, Verify, Replay, Propose;
    if m.process.Some? {
      InSyncMeaning(key, m.process.value.startedAt, m.entries, m.process.value.ritual);
    }
  }

  lemma NextKeepsRecoverable(key: string, jsonBytes: LogEntry -> nat, m: Machine, event: Event)
    requires Recoverable(key, m)
    ensures Recoverable(key, Next(key, jsonBytes, m, event))
    ensures m.entries <= Next(key, jsonBytes, m, event).entries
  {
    hide Parse, Verify, Replay, Propose, InSync, ResumeOrRecover;
    match event
    case Transition(_, _, _) => TransitionKeeps(key, jsonBytes, m, event);
    case TransitionThenCrash(_, _, _) => TransitionKeeps(key, jsonBytes, m, event);
    case SaveNature => SaveKeeps(key, jsonBytes, m);
    case Crash =>
    case Restart(f) => RestartKeeps(key, jsonBytes, m, f);
    case LoseNatureFile =>
  }

  /**
   Over any run with crashes between any durable writes and a save before each next append, no logged
   transition is lost, and at every point recovery succeeds, yields the log head, and reports a repair
   exactly when the saved Nature differs from that head.
   */
  lemma {:induction false} RunsAlwaysRecover(key: string, jsonBytes: LogEntry -> nat, founder: TentacleNature,
                                             events: seq<Event>, fallbackStartedAt: nat)
    requires founder.Valid()
    ensures var m := Run(key, jsonBytes, Machine([], Some(founder), None), events);
            var recovery := ResumeOrRecover(key, m.entries, m.saved, fallbackStartedAt);
      && Recoverable(key, m)
      && recovery.Some?
      && InSync(key, fallbackStartedAt, m.entries, recovery.value.ritual)
      && (m.entries == [] ==> recovery.value == Recovery(NewRitual(m.saved.value, fallbackStartedAt).value, false))
      && (m.entries != [] ==>
            && recovery.value.ritual.nature == m.entries[|m.entries| - 1].body.nature
            && (recovery.value.natureRecoveredFromLog
                <==> m.saved != Some(m.entries[|m.entries| - 1].body.nature)))
    ensures forall k :: 0 <= k <= |events| ==>
              Run(key, jsonBytes, Machine([], Some(founder), None), events[..k]).entries
              <= Run(key, jsonBytes, Machine([], Some(founder), None), events).entries
  {
    hide Parse, Verify, Replay, Propose, InSync, Next, Recoverable;
    var start := Machine([], Some(founder), None);
    RunKeeps(key, jsonBytes, start, founder, events);
    var m := Run(key, jsonBytes, start, events);
    RecoverableRecovers(key, m, fallbackStartedAt);
  }

  lemma RecoverableRecovers(key: string, m: Machine, fallbackStartedAt: nat)
    requires Recoverable(key, m)
    ensures var recovery := ResumeOrRecover(key, m.entries, m.saved, fallbackStartedAt);
      && recovery.Some?
      && InSync(key, fallbackStartedAt, m.entries, recovery.value.ritual)
      && (m.entries == [] ==>
            && m.saved.Some? && m.saved.value.Valid()
            && recovery.value == Recovery(NewRitual(m.saved.value, fallbackStartedAt).value, false))
      && (m.entries != [] ==>
            && recovery.value.ritual.nature == m.entries[|m.entries| - 1].body.nature
            && (recovery.value.natureRecoveredFromLog
                <==> m.saved != Some(m.entries[|m.entries| - 1].body.nature)))
  {
    hide Parse, Verify, Replay, Propose;
    if m.entries != [] {
      RecoveryExactly(key, m.entries, m.saved, fallbackStartedAt);
    }
  }

  lemma {:induction false} RunKeeps(key: string, jsonBytes: LogEntry -> nat, start: Machine,
                                    founder: TentacleNature, events: seq<Event>)
    requires founder.Valid() && start == Machine([], Some(founder), None)
    ensures Recoverable(key, Run(key, jsonBytes, start, events))
    ensures forall k :: 0 <= k <= |events| ==>
              Run(key, jsonBytes, start, events[..k]).entries <= Run(key, jsonBytes, start, events).entries
  {
    hide Parse, Replay, Propose, InSync, Next;
    if events == [] {
      assert Verify(key, []) == Some(EMPTY_LOG);
    } else {
      var init := events[..|events| - 1];
      RunKeeps(key, jsonBytes, start, founder, init);
      NextKeepsRecoverable(key, jsonBytes, Run(key, jsonBytes, start, init), events[|events| - 1]);
      forall k | 0 <= k <= |events|
        ensures Run(key, jsonBytes, start, events[..k]).entries <= Run(key, jsonBytes, start, events).entries
      {
        if k == |events| {
          assert events[..k] == events;
        } else {
          assert init[..k] == events[..k];
        }
      }
    }
  }
}
