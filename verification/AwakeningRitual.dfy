/**
 The in-memory ritual and its replay from the log. Two descriptions of one state machine meet here:
 the guards a transition passes in memory, and the checker that re-judges the logged history.
 */
module AwakeningRitual {
  import opened Integers
  import opened Wrappers
  import opened Text
  import opened Nature
  import opened AwakeningAction
  import opened AwakeningLog

  datatype Phase =
    | AwaitingConfirmation
    | ConfirmedBy(timestamp: nat, operatorId: string)
    | KilledBy(timestamp: nat, operatorId: string)
    | SkippedBy(timestamp: nat, operatorId: string)
    | AcceptedAt(timestamp: nat)

  datatype Ritual = Ritual(
    nature: TentacleNature,
    phase: Phase,
    epoch: nat,
    startedAt: nat,
    lastEventAt: nat,
    adjustmentCount: nat,
    rerollCount: nat)

  datatype Provenance = Provenance(operatorId: string, source: ProvenanceSource, eventIdSha256: string)
  {
    predicate Valid() { CanonicalActor(source, operatorId) && IsSha256Text(eventIdSha256) }
  }

  /** The five ways to move the ritual; `draw` is what randomness supplies to a reroll. */
  datatype Command =
    | Apply(action: Action, draw: Draw)
    | Skip
    | AcceptDefaultNature
    | AdjustAfterConfirmation(natureTrait: NatureTrait, value: U8)
    | ForceRerollEpoch(draw: Draw)

  datatype Proposal = Proposal(candidate: Ritual, recorded: RecordedAction)

  function PhaseFor(phase: Phase): LogPhase {
    match phase
    case AwaitingConfirmation => Pending
    case ConfirmedBy(_, _) => Confirmed
    case KilledBy(_, _) => Killed
    case SkippedBy(_, _) => SkippedForTesting
    case AcceptedAt(_) => AcceptedByDefault
  }

  function NewRitual(nature: TentacleNature, startedAt: nat): Option<Ritual> {
    if nature.Valid() then Some(Ritual(nature, AwaitingConfirmation, 1, startedAt, startedAt, 0, 0)) else None
  }

  function CheckedIncrement(n: nat, max: nat): Option<nat> {
    if n < max then Some(n + 1) else None
  }

  // ---------------------------------------------------------------- the guards in memory

  function ApplyUnlogged(r: Ritual, action: Action, draw: Draw, now: nat, actor: Provenance): Option<Ritual> {
    match action
    case Yes => Some(r.(phase := ConfirmedBy(now, actor.operatorId), lastEventAt := now))
    case Kill => Some(r.(phase := KilledBy(now, actor.operatorId), lastEventAt := now))
    case Adjust(t, d) =>
      (match (r.nature.Adjust(t, d), CheckedIncrement(r.adjustmentCount, U32_MAX))
       case (Some(n), Some(c)) => Some(r.(nature := n, adjustmentCount := c, lastEventAt := now))
       case _ => None)
    case Reroll =>
      (match (r.nature.Reroll(draw), CheckedIncrement(r.rerollCount, U32_MAX))
       case (Some(n), Some(c)) => Some(r.(nature := n, rerollCount := c, lastEventAt := now))
       case _ => None)
  }

  function ProposeAdjust(r: Ritual, t: NatureTrait, value: U8, now: nat): Option<Proposal> {
    if value > MAX_SLIDER || r.nature.Value(t) == value then None
    else
      match (r.nature.Adjust(t, value - r.nature.Value(t)), CheckedIncrement(r.adjustmentCount, U32_MAX))
      case (Some(n), Some(c)) =>
        Some(Proposal(r.(nature := n, adjustmentCount := c, lastEventAt := now), PostConfirmationAdjust(t, value)))
      case _ => None
  }

  function ProposeForcedReroll(r: Ritual, draw: Draw, now: nat): Option<Proposal> {
    match (r.nature.Reroll(draw), CheckedIncrement(r.epoch, U64_MAX))
    case (Some(n), Some(epoch)) =>
      Some(Proposal(Ritual(n, AwaitingConfirmation, epoch, now, now, 0, 1), ForcedRerollEpoch))
    case _ => None
  }

  /** Every check a transition passes before the log sees it, and the candidate it would commit. */
  function Propose(r: Ritual, c: Command, now: nat, actor: Provenance): Option<Proposal> {
    if !actor.Valid() || now < r.lastEventAt then None
    else
      match c
      case Apply(action, draw) =>
        if PhaseFor(r.phase) != Pending then None
        else
          (match ApplyUnlogged(r, action, draw, now, actor)
           case Some(candidate) => Some(Proposal(candidate, Operator(action)))
           case None => None)
      case Skip =>
        if PhaseFor(r.phase) != Pending || actor.source != LocalCli then None
        else Some(Proposal(r.(phase := SkippedBy(now, actor.operatorId), lastEventAt := now), SkipForTesting))
      case AcceptDefaultNature =>
        if PhaseFor(r.phase) != Pending || actor.source != LocalCli then None
        else Some(Proposal(r.(phase := AcceptedAt(now), lastEventAt := now), AcceptDefault))
      case AdjustAfterConfirmation(t, value) =>
        if !Awakened(PhaseFor(r.phase)) then None else ProposeAdjust(r, t, value, now)
      case ForceRerollEpoch(draw) =>
        if actor.source != LocalCli || !Completed(PhaseFor(r.phase)) then None
        else ProposeForcedReroll(r, draw, now)
  }

  // ---------------------------------------------------------------- what a command asks for and does, field by field

  /** The phase that a command needs. */
  predicate PhaseAllows(phase: Phase, c: Command) {
    match c
    case Apply(_, _) => phase.AwaitingConfirmation?
    case Skip => phase.AwaitingConfirmation?
    case AcceptDefaultNature => phase.AwaitingConfirmation?
    case AdjustAfterConfirmation(_, _) => phase.ConfirmedBy? || phase.SkippedBy? || phase.AcceptedAt?
    case ForceRerollEpoch(_) => !phase.AwaitingConfirmation?
  }

  /** Skipping, accepting the default and forcing a reroll are local matters. */
  predicate SourceAllows(source: ProvenanceSource, c: Command) {
    c.Skip? || c.AcceptDefaultNature? || c.ForceRerollEpoch? ==> source == LocalCli
  }

  /** The slider that a command moves, and where to. */
  function Moved(n: TentacleNature, c: Command): Option<(NatureTrait, int)> {
    match c
    case Apply(Adjust(t, d), _) => Some((t, n.Value(t) + d))
    case AdjustAfterConfirmation(t, value) => Some((t, value))
    case _ => None
  }

  function Drawn(c: Command): Option<Draw> {
    match c
    case Apply(Reroll, draw) => Some(draw)
    case ForceRerollEpoch(draw) => Some(draw)
    case _ => None
  }

  /** A moved slider stays in its range, afterwards it has to differ, and a drawn Nature has to be valid. */
  ghost predicate NatureAllows(n: TentacleNature, c: Command) {
    && (Moved(n, c).Some? ==> n.Valid() && 0 <= Moved(n, c).value.1 <= MAX_SLIDER)
    && (c.AdjustAfterConfirmation? ==> n.Value(c.natureTrait) != c.value)
    && (Drawn(c).Some? ==>
          && n.Valid() && IsNatureId(Drawn(c).value.natureId) && n.parentNatureId != Some(Drawn(c).value.natureId)
          && forall t: NatureTrait :: Drawn(c).value.Value(t) <= MAX_SLIDER)
  }

  predicate CountersAllow(r: Ritual, c: Command) {
    && (Moved(r.nature, c).Some? ==> r.adjustmentCount < U32_MAX)
    && (Drawn(c).Some? && !c.ForceRerollEpoch? ==> r.rerollCount < U32_MAX)
    && (c.ForceRerollEpoch? ==> r.epoch < U64_MAX)
  }

  ghost predicate Allowed(r: Ritual, c: Command, now: nat, actor: Provenance) {
    && actor.Valid() && r.lastEventAt <= now
    && PhaseAllows(r.phase, c) && SourceAllows(actor.source, c) && NatureAllows(r.nature, c) && CountersAllow(r, c)
  }

  /** Every terminal phase keeps the time; all but the accepted default keep the operator. */
  function PhaseUnder(phase: Phase, c: Command, now: nat, operatorId: string): Phase {
    match c
    case Apply(Yes, _) => ConfirmedBy(now, operatorId)
    case Apply(Kill, _) => KilledBy(now, operatorId)
    case Skip => SkippedBy(now, operatorId)
    case AcceptDefaultNature => AcceptedAt(now)
    case ForceRerollEpoch(_) => AwaitingConfirmation
    case _ => phase
  }

  ghost predicate NatureFollows(n: TentacleNature, c: Command, m: TentacleNature) {
    if Drawn(c).Some? then m.IsDrawn(Drawn(c).value) && SameLineage(n, m)
    else if Moved(n, c).Some? then OnlySlider(n, Moved(n, c).value.0, Moved(n, c).value.1, m)
    else m == n
  }

  predicate CountersFollow(r: Ritual, c: Command, now: nat, q: Ritual) {
    if c.ForceRerollEpoch? then
      q.epoch == r.epoch + 1 && q.startedAt == now && q.adjustmentCount == 0 && q.rerollCount == 1
    else
      && q.epoch == r.epoch && q.startedAt == r.startedAt
      && q.adjustmentCount == r.adjustmentCount + (if Moved(r.nature, c).Some? then 1 else 0)
      && q.rerollCount == r.rerollCount + (if Drawn(c).Some? then 1 else 0)
  }

  /** What a command makes of a ritual. */
  ghost predicate Follows(r: Ritual, c: Command, now: nat, actor: Provenance, q: Ritual) {
    && q.phase == PhaseUnder(r.phase, c, now, actor.operatorId) && q.lastEventAt == now
    && NatureFollows(r.nature, c, q.nature) && CountersFollow(r, c, now, q)
  }

  /** What the log calls the command. */
  function RecordedAs(c: Command): RecordedAction {
    match c
    case Apply(action, _) => Operator(action)
    case Skip => SkipForTesting
    case AcceptDefaultNature => AcceptDefault
    case AdjustAfterConfirmation(t, value) => PostConfirmationAdjust(t, value)
    case ForceRerollEpoch(_) => ForcedRerollEpoch
  }

  /** The guards let through exactly the allowed commands, and the candidate is what the command makes of the ritual. */
  lemma CommandsAreObeyed(r: Ritual, c: Command, now: nat, actor: Provenance)
    ensures Propose(r, c, now, actor).Some? <==> Allowed(r, c, now, actor)
    ensures Propose(r, c, now, actor).Some? ==>
              && Follows(r, c, now, actor, Propose(r, c, now, actor).value.candidate)
              && Propose(r, c, now, actor).value.recorded == RecordedAs(c)
  {
    hide Parse, CanonicalActor, IsSha256Text, IsNatureId;
  }

  /** At most one ritual follows: the description leaves nothing open. */
  lemma FollowsOneWay(r: Ritual, c: Command, now: nat, actor: Provenance, q: Ritual, q': Ritual)
    requires Follows(r, c, now, actor, q) && Follows(r, c, now, actor, q')
    ensures q == q'
  {
    SameValues(q.nature, q'.nature);
  }

  // ---------------------------------------------------------------- the entry a proposal appends

  function LastSignature(entries: seq<LogEntry>): Option<Signature> {
    if entries == [] then None else Some(entries[|entries| - 1].signature)
  }

  function NewBody(entries: seq<LogEntry>, r: Ritual, p: Proposal, now: nat, actor: Provenance): EntryBody {
    EntryBody(
      AWAKENING_LOG_VERSION, |entries| + 1, p.candidate.epoch, now, actor.operatorId, actor.source,
      actor.eventIdSha256, Normalize(p.recorded),
      r.nature.natureId, Sha256(r.nature), r.nature,
      p.candidate.nature.natureId, Sha256(p.candidate.nature), p.candidate.nature,
      PhaseFor(p.candidate.phase), AWAKENING_LOG_ALGORITHM, LastSignature(entries))
  }

  function NewEntry(key: string, entries: seq<LogEntry>, r: Ritual, p: Proposal, now: nat,
                    actor: Provenance): LogEntry
  {
    var body := NewBody(entries, r, p, now, actor);
    LogEntry(body, Hmac(key, Canonical(body)))
  }

  /** What an entry says of a transition: who did what and when, and what it did to the ritual. */
  predicate Testifies(body: EntryBody, r: Ritual, c: Command, now: nat, actor: Provenance, q: Ritual) {
    && body.operatorId == actor.operatorId && body.provenance == actor.source
    && body.eventIdSha256 == actor.eventIdSha256 && body.timestamp == now
    && body.normalizedAction == Normalize(RecordedAs(c))
    && body.predecessorNature == r.nature && body.nature == q.nature
    && body.epoch == q.epoch && body.phase == PhaseFor(q.phase)
  }

  lemma EntryTestifies(key: string, entries: seq<LogEntry>, r: Ritual, c: Command, now: nat, actor: Provenance,
                       p: Proposal)
    requires p.recorded == RecordedAs(c)
    ensures Testifies(NewEntry(key, entries, r, p, now, actor).body, r, c, now, actor, p.candidate)
  {
    hide Normalize;
  }

  // ---------------------------------------------------------------- replay

  /** The effect of one logged action on the counters and the phase. */
  function ReplayAction(r: Ritual, a: RecordedAction, timestamp: nat, operatorId: string): Option<Ritual> {
    match a
    case Operator(Adjust(_, _)) => ReplayAdjustment(r)
    case PostConfirmationAdjust(_, _) => ReplayAdjustment(r)
    case Operator(Reroll) => ReplayReroll(r)
    case ForcedRerollEpoch => ReplayReroll(r)
    case Operator(Yes) => Some(r.(phase := ConfirmedBy(timestamp, operatorId)))
    case Operator(Kill) => Some(r.(phase := KilledBy(timestamp, operatorId)))
    case SkipForTesting => Some(r.(phase := SkippedBy(timestamp, operatorId)))
    case AcceptDefault => Some(r.(phase := AcceptedAt(timestamp)))
  }

  function ReplayEntry(r: Ritual, e: LogEntry): Option<Ritual> {
    match Parse(e.body.normalizedAction)
    case None => None
    case Some(a) => ReplayAction(r, a, e.body.timestamp, e.body.operatorId)
  }

  function ReplayAdjustment(r: Ritual): Option<Ritual> {
    match CheckedIncrement(r.adjustmentCount, U32_MAX)
    case Some(c) => Some(r.(adjustmentCount := c))
    case None => None
  }

  function ReplayReroll(r: Ritual): Option<Ritual> {
    match CheckedIncrement(r.rerollCount, U32_MAX)
    case Some(c) => Some(r.(rerollCount := c))
    case None => None
  }

  function ReplayAll(r: Ritual, es: seq<LogEntry>): Option<Ritual> {
    if es == [] then Some(r)
    else
      match ReplayAll(r, es[..|es| - 1])
      case None => None
      case Some(before) => ReplayEntry(before, es[|es| - 1])
  }

  /** `from_verified_entries`, given the entries that were just verified. */
  function Replay(nature: TentacleNature, fallbackStartedAt: nat, entries: seq<LogEntry>): Option<Ritual> {
    if entries == [] || nature != entries[|entries| - 1].body.nature then None
    else
      var last := entries[|entries| - 1];
      var es := EpochEntries(entries, last.body.epoch);
      if es == [] then None
      else
        var startedAt := if last.body.epoch == 1 then Min(fallbackStartedAt, es[0].body.timestamp)
                         else es[0].body.timestamp;
        match NewRitual(nature, startedAt)
        case None => None
        case Some(base) =>
          match ReplayAll(base.(epoch := last.body.epoch, lastEventAt := last.body.timestamp), es)
          case None => None
          case Some(r) => if PhaseFor(r.phase) == last.body.phase then Some(r) else None
  }

  /**
   The ritual agrees with the log: replaying the log from the original start time rebuilds it, and
   before the first entry it is a new ritual.
   */
  predicate InSync(key: string, startedAt: nat, entries: seq<LogEntry>, r: Ritual) {
    && Accepted(key, entries)
    && (if entries == [] then NewRitual(r.nature, startedAt) == Some(r)
        else Replay(entries[|entries| - 1].body.nature, startedAt, entries) == Some(r))
  }

  // ---------------------------------------------------------------- replay facts

  lemma ReplayAllAppend(r: Ritual, es: seq<LogEntry>, e: LogEntry)
    ensures ReplayAll(r, es + [e]) ==
            match ReplayAll(r, es) case None => None case Some(before) => ReplayEntry(before, e)
  {
    assert (es + [e])[..|es|] == es;
  }

  /** Replay never touches the Nature, the epoch and the times, and counts at most one per entry. */
  lemma {:induction false} ReplayKeeps(r: Ritual, es: seq<LogEntry>)
    requires ReplayAll(r, es).Some?
    ensures var q := ReplayAll(r, es).value;
      && q.nature == r.nature && q.epoch == r.epoch
      && q.startedAt == r.startedAt && q.lastEventAt == r.lastEventAt
      && q.adjustmentCount <= r.adjustmentCount + |es| && q.rerollCount <= r.rerollCount + |es|
  {
    hide Parse;
    if es != [] {
      ReplayKeeps(r, es[..|es| - 1]);
    }
  }

  /** Replay does not depend on the Nature and the last event time it starts from. */
  lemma {:induction false} ReplayFrame(r: Ritual, es: seq<LogEntry>, nature: TentacleNature, lastEventAt: nat)
    ensures ReplayAll(r.(nature := nature, lastEventAt := lastEventAt), es) ==
            match ReplayAll(r, es)
            case None => None
            case Some(q) => Some(q.(nature := nature, lastEventAt := lastEventAt))
  {
    hide Parse;
    if es != [] {
      ReplayFrame(r, es[..|es| - 1], nature, lastEventAt);
    }
  }

  /** What agreement with the log tells about the ritual's own fields. */
  lemma InSyncMeaning(key: string, startedAt: nat, entries: seq<LogEntry>, r: Ritual)
    requires InSync(key, startedAt, entries, r)
    ensures r.nature.Valid()
    ensures r.adjustmentCount <= |entries| && r.rerollCount <= |entries| && 1 <= r.epoch <= |entries| + 1
    ensures PhaseFor(r.phase) == Verify(key, entries).value.phase
    ensures entries != [] ==>
              var last := entries[|entries| - 1].body;
              && r.nature == last.nature && r.epoch == last.epoch && r.lastEventAt == last.timestamp
  {
    hide Parse, Verify, EpochsFormed, EpochEntries;
    HeadMeaning(key, entries);
    if entries != [] {
      AcceptedLogForm(key, entries);
      var last := entries[|entries| - 1];
      var es := EpochEntries(entries, last.body.epoch);
      var startedAt' := if last.body.epoch == 1 then Min(startedAt, es[0].body.timestamp) else es[0].body.timestamp;
      var base := NewRitual(last.body.nature, startedAt').value;
      ReplayKeeps(base.(epoch := last.body.epoch, lastEventAt := last.body.timestamp), es);
      EpochEntriesLength(entries, last.body.epoch);
    } else {
      assert Verify(key, entries).value.phase == Pending;
    }
  }

  lemma EpochEntriesLength(entries: seq<LogEntry>, epoch: nat)
    ensures |EpochEntries(entries, epoch)| <= |entries|
  {
  }

  // ---------------------------------------------------------------- memory and log agree

  /** What the log demands of a proposal beyond the guards it already passed in memory. */
  ghost predicate LogAdmits(entries: seq<LogEntry>, r: Ritual, p: Proposal, actor: Provenance) {
    && (forall i :: 0 <= i < |entries| ==> entries[i].body.eventIdSha256 != actor.eventIdSha256)
    && (Rerolls(p.recorded) ==>
          p.candidate.nature.natureId != r.nature.natureId && !NatureIdIn(entries, p.candidate.nature.natureId))
    && !ZeroAdjust(p.recorded)
  }

  predicate ZeroAdjust(a: RecordedAction) { a.Operator? && a.action.Adjust? && a.action.delta == 0 }

  /** What the log demands of a command: no identifier is used twice, and an adjustment adjusts. */
  ghost predicate LogTakes(entries: seq<LogEntry>, n: TentacleNature, c: Command, actor: Provenance) {
    && (forall i :: 0 <= i < |entries| ==> entries[i].body.eventIdSha256 != actor.eventIdSha256)
    && (Drawn(c).Some? ==>
          Drawn(c).value.natureId != n.natureId && !NatureIdIn(entries, Drawn(c).value.natureId))
    && (Moved(n, c).Some? ==> Moved(n, c).value.1 != n.Value(Moved(n, c).value.0))
  }

  /** The guards in memory imply the phase rule and the Nature rule of the checker. */
  lemma GuardsImplyRules(r: Ritual, c: Command, now: nat, actor: Provenance, p: Proposal)
    requires Propose(r, c, now, actor) == Some(p)
    ensures r.lastEventAt <= now == p.candidate.lastEventAt && actor.Valid()
    ensures r.nature.Valid() ==> p.candidate.nature.Valid()
    ensures p.candidate.epoch == if p.recorded.ForcedRerollEpoch? then r.epoch + 1 else r.epoch
    ensures TransitionPhase(PhaseFor(r.phase), p.recorded, actor.source, p.recorded.ForcedRerollEpoch?)
            == Some(PhaseFor(p.candidate.phase))
    ensures Rerolls(p.recorded) ==> SameLineage(r.nature, p.candidate.nature)
    ensures !Rerolls(p.recorded) ==> ValidNatureTransition(r.nature, p.candidate.nature, p.recorded, false)
    ensures Loggable(p.recorded) <==> !ZeroAdjust(p.recorded)
  {
    hide Parse, CanonicalActor, IsSha256Text;
  }

  lemma EntryIsWellFormed(key: string, entries: seq<LogEntry>, r: Ritual, p: Proposal, now: nat, actor: Provenance)
    requires r.nature.Valid() && p.candidate.nature.Valid() && actor.Valid()
    requires Loggable(p.recorded) <==> !ZeroAdjust(p.recorded)
    ensures WellFormedEntry(key, NewEntry(key, entries, r, p, now, actor)) <==> !ZeroAdjust(p.recorded)
    ensures !ZeroAdjust(p.recorded) ==> ActionOf(NewEntry(key, entries, r, p, now, actor)) == p.recorded
  {
    hide Parse, Normalize, Loggable, CanonicalActor, IsSha256Text;
    if ZeroAdjust(p.recorded) {
      ZeroAdjustDoesNotParse(p.recorded.action.natureTrait);
    } else {
      LoggableIffTextParsesBack(p.recorded);
    }
  }

  lemma EntryIsChained(key: string, startedAt: nat, entries: seq<LogEntry>, r: Ritual, c: Command,
                       now: nat, actor: Provenance, p: Proposal)
    requires InSync(key, startedAt, entries, r) && |entries| < U32_MAX
    requires Propose(r, c, now, actor) == Some(p)
    ensures var e, st := NewEntry(key, entries, r, p, now, actor), Verify(key, entries).value;
      && (Chained(st, e) <==>
            forall i :: 0 <= i < |entries| ==> entries[i].body.eventIdSha256 != actor.eventIdSha256)
      && (BeginsEpoch(st, e) <==> p.recorded.ForcedRerollEpoch?)
      && st.phase == PhaseFor(r.phase)
      && (forall id :: id in KnownNatureIds(st, e) <==> NatureIdIn(entries, id) || id == r.nature.natureId)
  {
    hide Parse, Replay, Verify, Propose, TransitionPhase;
    InSyncMeaning(key, startedAt, entries, r);
    StateMeaning(key, entries);
    GuardsImplyRules(r, c, now, actor, p);
    if entries == [] {
      InSyncAtStart(key, startedAt, r);
      NothingForcedAtStart(r, c, now, actor, p);
    } else {
      assert NatureIdIn(entries, r.nature.natureId) by {
        HeadNatureIdMatches(key, entries);
      }
    }
  }

  lemma InSyncAtStart(key: string, startedAt: nat, r: Ritual)
    requires InSync(key, startedAt, [], r)
    ensures PhaseFor(r.phase) == Pending && r.epoch == 1 && r.startedAt == r.lastEventAt == startedAt
    ensures r.adjustmentCount == r.rerollCount == 0 && r.phase == AwaitingConfirmation
  {
  }

  lemma NothingForcedAtStart(r: Ritual, c: Command, now: nat, actor: Provenance, p: Proposal)
    requires Propose(r, c, now, actor) == Some(p) && PhaseFor(r.phase) == Pending
    ensures !p.recorded.ForcedRerollEpoch?
  {
  }

  lemma HeadNatureIdMatches(key: string, entries: seq<LogEntry>)
    requires Accepted(key, entries) && entries != []
    ensures var last := entries[|entries| - 1].body; last.natureId == last.nature.natureId
  {
    hide Parse, Normalize, CanonicalActor, IsSha256Text;
    EntryAccepted(key, entries, |entries| - 1);
  }

  /**
   A transition the guards in memory allow is accepted by the log exactly when its event id was never
   used, a rerolled identifier was never used, and an adjustment is not the zero adjustment (whose
   text no parser accepts). Nothing else can make the checker refuse it.
   */
  lemma LogAdmitsExactly(key: string, startedAt: nat, entries: seq<LogEntry>, r: Ritual, c: Command,
                         now: nat, actor: Provenance, p: Proposal)
    requires InSync(key, startedAt, entries, r) && |entries| < U32_MAX
    requires Propose(r, c, now, actor) == Some(p)
    ensures Accepted(key, entries + [NewEntry(key, entries, r, p, now, actor)])
            <==> LogAdmits(entries, r, p, actor)
  {
    hide Parse, Replay, Verify, Propose, WellFormedEntry, ActionOf, Chained, BeginsEpoch, KnownNatureIds,
         NatureIdIn, TransitionPhase, ZeroAdjust, Loggable;
    var e := NewEntry(key, entries, r, p, now, actor);
    VerifyAppend(key, entries, e);
    InSyncMeaning(key, startedAt, entries, r);
    GuardsImplyRules(r, c, now, actor, p);
    EntryIsWellFormed(key, entries, r, p, now, actor);
    EntryIsChained(key, startedAt, entries, r, c, now, actor, p);
    NonRerollNotForced(p.recorded);
  }

  /** The same in terms of the command: which allowed commands the log of a ritual in agreement accepts. */
  lemma LogTakesExactly(key: string, startedAt: nat, entries: seq<LogEntry>, r: Ritual, c: Command,
                        now: nat, actor: Provenance, p: Proposal)
    requires InSync(key, startedAt, entries, r) && |entries| < U32_MAX
    requires Propose(r, c, now, actor) == Some(p)
    ensures Accepted(key, entries + [NewEntry(key, entries, r, p, now, actor)])
            <==> LogTakes(entries, r.nature, c, actor)
  {
    hide Propose, InSync, Accepted, NewEntry, LogAdmits, LogTakes, PhaseAllows, SourceAllows, NatureAllows,
         CountersAllow, Follows, RecordedAs;
    CommandsAreObeyed(r, c, now, actor);
    LogAdmitsExactly(key, startedAt, entries, r, c, now, actor, p);
    AdmittedIsTaken(entries, r, c, now, actor, p);
  }

  lemma AdmittedIsTaken(entries: seq<LogEntry>, r: Ritual, c: Command, now: nat, actor: Provenance, p: Proposal)
    requires p.recorded == RecordedAs(c) && Follows(r, c, now, actor, p.candidate) && NatureAllows(r.nature, c)
    ensures LogAdmits(entries, r, p, actor) <==> LogTakes(entries, r.nature, c, actor)
  {
    hide NatureIdIn, CountersFollow, PhaseUnder, SameLineage;
    assert Rerolls(p.recorded) <==> Drawn(c).Some?;
    assert Drawn(c).Some? ==> p.candidate.nature.natureId == Drawn(c).value.natureId;
  }

  lemma NonRerollNotForced(a: RecordedAction)
    ensures !Rerolls(a) ==> !a.ForcedRerollEpoch?
  {
  }

  /** Replaying the new entry takes the old ritual, with the new Nature and time, to the candidate. */
  lemma ReplayMatches(key: string, entries: seq<LogEntry>, r: Ritual, c: Command, now: nat,
                      actor: Provenance, p: Proposal)
    requires Propose(r, c, now, actor) == Some(p) && r.nature.Valid() && !ZeroAdjust(p.recorded)
    requires !p.recorded.ForcedRerollEpoch?
    ensures ReplayEntry(r.(nature := p.candidate.nature, lastEventAt := now), NewEntry(key, entries, r, p, now, actor))
            == Some(p.candidate)
  {
    hide Parse, Normalize, CanonicalActor, IsSha256Text;
    GuardsImplyRules(r, c, now, actor, p);
    LoggableIffTextParsesBack(p.recorded);
  }

  lemma ForcedReplayMatches(key: string, entries: seq<LogEntry>, r: Ritual, c: Command, now: nat,
                            actor: Provenance, p: Proposal)
    requires Propose(r, c, now, actor) == Some(p) && p.recorded.ForcedRerollEpoch?
    ensures ReplayEntry(Ritual(p.candidate.nature, AwaitingConfirmation, r.epoch + 1, now, now, 0, 0),
                        NewEntry(key, entries, r, p, now, actor))
            == Some(p.candidate)
  {
    hide Parse, Normalize, CanonicalActor, IsSha256Text;
    LoggableIffTextParsesBack(p.recorded);
  }

  lemma ReplayOne(r: Ritual, e: LogEntry)
    ensures ReplayAll(r, [e]) == ReplayEntry(r, e)
  {
    hide ReplayEntry;
    assert [e][..0] == [];
    assert ReplayAll(r, []) == Some(r);
  }

  lemma ReplayOfForced(key: string, startedAt: nat, entries: seq<LogEntry>, r: Ritual, c: Command,
                       now: nat, actor: Provenance, p: Proposal)
    requires InSync(key, startedAt, entries, r) && Propose(r, c, now, actor) == Some(p)
    requires p.recorded.ForcedRerollEpoch?
    ensures Replay(p.candidate.nature, startedAt, entries + [NewEntry(key, entries, r, p, now, actor)])
            == Some(p.candidate)
  {
    var e := NewEntry(key, entries, r, p, now, actor);
    hide Parse, Verify, Propose, Replay, ReplayEntry, InSync, CanonicalActor, Normalize, TransitionPhase, NewEntry;
    InSyncMeaning(key, startedAt, entries, r);
    GuardsImplyRules(r, c, now, actor, p);
    NewestEpoch(key, startedAt, entries, r);
    ForcedReplayMatches(key, entries, r, c, now, actor, p);
    NewEntryFields(key, entries, r, p, now, actor);
    ReplayOfOpening(startedAt, entries, e, p.candidate);
  }

  /** No entry of a log is in a later epoch than the ritual that agrees with it. */
  lemma NewestEpoch(key: string, startedAt: nat, entries: seq<LogEntry>, r: Ritual)
    requires InSync(key, startedAt, entries, r)
    ensures forall i :: 0 <= i < |entries| ==> entries[i].body.epoch < r.epoch + 1
  {
    InSyncMeaning(key, startedAt, entries, r);
    hide Parse, Verify, Replay, EpochsFormed;
    AcceptedLogForm(key, entries);
  }

  lemma NewEntryFields(key: string, entries: seq<LogEntry>, r: Ritual, p: Proposal, now: nat, actor: Provenance)
    ensures var body := NewEntry(key, entries, r, p, now, actor).body;
      && body.epoch == p.candidate.epoch && body.timestamp == now && body.nature == p.candidate.nature
      && body.phase == PhaseFor(p.candidate.phase)
  {
    hide Normalize, Canonical;
  }

  /** Replaying a log whose last entry opens a new epoch looks at that entry alone. */
  lemma ReplayOfOpening(startedAt: nat, entries: seq<LogEntry>, e: LogEntry, q: Ritual)
    requires forall i :: 0 <= i < |entries| ==> entries[i].body.epoch < e.body.epoch
    requires e.body.epoch > 1 && e.body.nature.Valid() && PhaseFor(q.phase) == e.body.phase
    requires ReplayEntry(Ritual(e.body.nature, AwaitingConfirmation, e.body.epoch, e.body.timestamp,
                                e.body.timestamp, 0, 0), e) == Some(q)
    ensures Replay(e.body.nature, startedAt, entries + [e]) == Some(q)
  {
    hide ReplayEntry, EpochEntries, ReplayAll;
    NoLaterEpoch(entries, e.body.epoch);
    EpochEntriesAppend(entries, e, e.body.epoch);
    assert [] + [e] == [e];
    ReplayOne(Ritual(e.body.nature, AwaitingConfirmation, e.body.epoch, e.body.timestamp, e.body.timestamp, 0, 0), e);
    assert (entries + [e])[|entries|] == e;
  }

  lemma ReplayOfFirst(key: string, startedAt: nat, r: Ritual, c: Command, now: nat, actor: Provenance, p: Proposal)
    requires InSync(key, startedAt, [], r) && Propose(r, c, now, actor) == Some(p)
    requires !ZeroAdjust(p.recorded)
    ensures Replay(p.candidate.nature, startedAt, [] + [NewEntry(key, [], r, p, now, actor)]) == Some(p.candidate)
  {
    hide Parse, Verify, Propose, ReplayEntry, CanonicalActor, Normalize;
    var e := NewEntry(key, [], r, p, now, actor);
    InSyncAtStart(key, startedAt, r);
    NothingForcedAtStart(r, c, now, actor, p);
    GuardsImplyRules(r, c, now, actor, p);
    EpochEntriesAppend([], e, 1);
    assert EpochEntries([] + [e], 1) == [e];
    ReplayMatches(key, [], r, c, now, actor, p);
    ReplayOne(r.(nature := p.candidate.nature, lastEventAt := now), e);
    assert ([] + [e])[0] == e && |[] + [e]| == 1;
  }

  /** Within an epoch, replay of a longer log goes on from the replay of the shorter one. */
  lemma ReplayExtends(key: string, startedAt: nat, entries: seq<LogEntry>, q: Ritual, e: LogEntry)
    requires InSync(key, startedAt, entries, q) && entries != []
    requires e.body.epoch == q.epoch && e.body.nature.Valid()
    ensures Replay(e.body.nature, startedAt, entries + [e])
            == match ReplayEntry(q.(nature := e.body.nature, lastEventAt := e.body.timestamp), e)
               case None => None
               case Some(next) => if PhaseFor(next.phase) == e.body.phase then Some(next) else None
  {
    hide Parse, Verify, ReplayEntry, ReplayAll, EpochEntries;
    InSyncMeaning(key, startedAt, entries, q);
    var last := entries[|entries| - 1].body;
    var es := EpochEntries(entries, last.epoch);
    var since := if last.epoch == 1 then Min(startedAt, es[0].body.timestamp) else es[0].body.timestamp;
    var base := Ritual(last.nature, AwaitingConfirmation, last.epoch, since, last.timestamp, 0, 0);
    assert ReplayAll(base, es) == Some(q);
    EpochEntriesAppend(entries, e, last.epoch);
    assert EpochEntries(entries + [e], last.epoch) == es + [e];
    assert (es + [e])[0] == es[0];
    ReplayFrame(base, es, e.body.nature, e.body.timestamp);
    ReplayAllAppend(base.(nature := e.body.nature, lastEventAt := e.body.timestamp), es, e);
  }

  lemma ReplayOfSameEpoch(key: string, startedAt: nat, entries: seq<LogEntry>, r: Ritual, c: Command,
                          now: nat, actor: Provenance, p: Proposal)
    requires InSync(key, startedAt, entries, r) && Propose(r, c, now, actor) == Some(p) && entries != []
    requires !p.recorded.ForcedRerollEpoch? && !ZeroAdjust(p.recorded)
    ensures Replay(p.candidate.nature, startedAt, entries + [NewEntry(key, entries, r, p, now, actor)])
            == Some(p.candidate)
  {
    hide Parse, Verify, Propose, Replay, ReplayEntry, InSync, NewEntry, TransitionPhase;
    InSyncMeaning(key, startedAt, entries, r);
    GuardsImplyRules(r, c, now, actor, p);
    NewEntryFields(key, entries, r, p, now, actor);
    ReplayMatches(key, entries, r, c, now, actor, p);
    ReplayExtends(key, startedAt, entries, r, NewEntry(key, entries, r, p, now, actor));
  }

  /**
   The simulation: when the log accepts the entry of a transition, replaying the longer log from the
   original start time rebuilds exactly the ritual that the transition commits in memory.
   */
  lemma SimulationStep(key: string, startedAt: nat, entries: seq<LogEntry>, r: Ritual, c: Command,
                       now: nat, actor: Provenance, p: Proposal)
    requires InSync(key, startedAt, entries, r) && |entries| < U32_MAX
    requires Propose(r, c, now, actor) == Some(p)
    requires LogAdmits(entries, r, p, actor)
    ensures InSync(key, startedAt, entries + [NewEntry(key, entries, r, p, now, actor)], p.candidate)
  {
    hide Parse, Verify, Propose, Replay;
    LogAdmitsExactly(key, startedAt, entries, r, c, now, actor, p);
    if p.recorded.ForcedRerollEpoch? {
      ReplayOfForced(key, startedAt, entries, r, c, now, actor, p);
    } else if entries == [] {
      ReplayOfFirst(key, startedAt, r, c, now, actor, p);
    } else {
      ReplayOfSameEpoch(key, startedAt, entries, r, c, now, actor, p);
    }
  }

  // ---------------------------------------------------------------- a lost acknowledgement

  /**
   An append can reach the disk and still be reported as failed. From then on the ritual in memory is
   one entry behind, and the log refuses every further transition of it until it is recovered.
   */
  lemma MissedAppendBlocksUntilRecovery(key: string, startedAt: nat, entries: seq<LogEntry>, r: Ritual,
                                        c0: Command, now0: nat, actor0: Provenance, p0: Proposal,
                                        c: Command, now: nat, actor: Provenance, p: Proposal)
    requires InSync(key, startedAt, entries, r) && |entries| < U32_MAX
    requires Propose(r, c0, now0, actor0) == Some(p0) && LogAdmits(entries, r, p0, actor0)
    requires Propose(r, c, now, actor) == Some(p)
    ensures var longer := entries + [NewEntry(key, entries, r, p0, now0, actor0)];
      !Accepted(key, longer + [NewEntry(key, longer, r, p, now, actor)])
  {
    hide Parse, Verify, Propose, Replay, NatureIdIn, WellFormedEntry, InSync, StateDescribes;
    var m := NewEntry(key, entries, r, p0, now0, actor0);
    var longer := entries + [m];
    var e := NewEntry(key, longer, r, p, now, actor);
    SimulationStep(key, startedAt, entries, r, c0, now0, actor0, p0);
    InSyncIsAccepted(key, startedAt, entries, r);
    InSyncIsAccepted(key, startedAt, longer, p0.candidate);
    InSyncMeaning(key, startedAt, entries, r);
    GuardsImplyRules(r, c0, now0, actor0, p0);
    GuardsImplyRules(r, c, now, actor, p);
    HeadMeaning(key, longer);
    VerifyAppend(key, longer, e);
    UnchangedNatureIsTerminal(r, c0, now0, actor0, p0);
    if p0.candidate.nature == r.nature {
      assert r.phase == AwaitingConfirmation;
      NothingForcedAtStart(r, c, now, actor, p);
      PendingRulesNeedPending(p0, p, actor);
      EntryIsWellFormed(key, longer, r, p, now, actor);
    }
  }

  lemma InSyncIsAccepted(key: string, startedAt: nat, entries: seq<LogEntry>, r: Ritual)
    requires InSync(key, startedAt, entries, r)
    ensures Accepted(key, entries)
  {
  }

  lemma UnchangedNatureIsTerminal(r: Ritual, c: Command, now: nat, actor: Provenance, p: Proposal)
    requires Propose(r, c, now, actor) == Some(p) && !ZeroAdjust(p.recorded)
    requires Rerolls(p.recorded) ==> p.candidate.nature.natureId != r.nature.natureId
    ensures p.candidate.nature == r.nature ==>
              TerminalAction(p.recorded) && r.phase == AwaitingConfirmation && Completed(PhaseFor(p.candidate.phase))
  {
    hide CanonicalActor, IsSha256Text;
  }

  lemma PendingRulesNeedPending(p0: Proposal, p: Proposal, actor: Provenance)
    requires Completed(PhaseFor(p0.candidate.phase))
    requires TransitionPhase(Pending, p.recorded, actor.source, false).Some?
    ensures TransitionPhase(PhaseFor(p0.candidate.phase), p.recorded, actor.source, false).None?
  {
  }

  /** What acceptance tells about the ritual that proposed an entry, in agreement with the log or not. */
  lemma AcceptedProposal(key: string, startedAt: nat, entries: seq<LogEntry>, q: Ritual, r: Ritual, c: Command,
                         now: nat, actor: Provenance, p: Proposal)
    requires InSync(key, startedAt, entries, q) && entries != [] && Propose(r, c, now, actor) == Some(p)
    requires Accepted(key, entries + [NewEntry(key, entries, r, p, now, actor)])
    ensures r.nature == q.nature && r.epoch == q.epoch && r.nature.Valid() && p.candidate.nature.Valid()
    ensures !ZeroAdjust(p.recorded)
  {
    hide Parse, Normalize, Replay, Verify, Propose, ZeroAdjust, CanonicalActor, IsSha256Text, ValidNatureTransition;
    var e, st := NewEntry(key, entries, r, p, now, actor), Verify(key, entries).value;
    VerifyAppend(key, entries, e);
    InSyncMeaning(key, startedAt, entries, q);
    HeadMeaning(key, entries);
    GuardsImplyRules(r, c, now, actor, p);
    assert WellFormedEntry(key, e) && Chained(st, e);
    EntryIsWellFormed(key, entries, r, p, now, actor);
    ForcedMeansForced(key, st, e);
  }

  /** An accepted entry opens an epoch exactly when its action is the forced reroll. */
  lemma ForcedMeansForced(key: string, st: LogState, e: LogEntry)
    requires Step(key, st, e).Some?
    ensures BeginsEpoch(st, e) <==> ActionOf(e).ForcedRerollEpoch?
  {
    hide Parse, WellFormedEntry, Chained, ValidNatureTransition, KnownNatureIds;
  }

  /** One logged action takes two rituals to the same ritual only when it found them alike. */
  lemma ActionIsInjective(r: Ritual, q: Ritual, a: RecordedAction, timestamp: nat, operatorId: string)
    requires r.nature == q.nature && r.epoch == q.epoch && r.lastEventAt == q.lastEventAt
    requires ReplayAction(r, a, timestamp, operatorId).Some? && (TerminalAction(a) ==> r.phase == q.phase)
    ensures ReplayAction(q, a, timestamp, operatorId) == ReplayAction(r, a, timestamp, operatorId)
            <==> SameBookkeeping(r, q)
  {
  }

  lemma NewEntryReplays(key: string, entries: seq<LogEntry>, r: Ritual, q: Ritual, p: Proposal, now: nat,
                        actor: Provenance)
    requires Loggable(p.recorded)
    ensures ReplayEntry(q, NewEntry(key, entries, r, p, now, actor))
            == ReplayAction(q, p.recorded, now, actor.operatorId)
  {
    LoggableIffTextParsesBack(p.recorded);
    hide Parse, Normalize, ReplayAction, Canonical;
  }

  lemma StepIsInjective(key: string, entries: seq<LogEntry>, r: Ritual, q: Ritual, c: Command, now: nat,
                        actor: Provenance, p: Proposal)
    requires Propose(r, c, now, actor) == Some(p) && r.nature.Valid() && !ZeroAdjust(p.recorded)
    requires !p.recorded.ForcedRerollEpoch? && r.epoch == q.epoch
    requires TerminalAction(p.recorded) ==> r.phase == q.phase
    ensures ReplayEntry(q.(nature := p.candidate.nature, lastEventAt := now), NewEntry(key, entries, r, p, now, actor))
              == Some(p.candidate)
            <==> SameBookkeeping(r, q)
  {
    hide Parse, Normalize, Propose, NewEntry, ReplayEntry, ReplayAction, TerminalAction;
    GuardsImplyRules(r, c, now, actor, p);
    ReplayMatches(key, entries, r, c, now, actor, p);
    var r' := r.(nature := p.candidate.nature, lastEventAt := now);
    var q' := q.(nature := p.candidate.nature, lastEventAt := now);
    NewEntryReplays(key, entries, r, r', p, now, actor);
    NewEntryReplays(key, entries, r, q', p, now, actor);
    ActionIsInjective(r', q', p.recorded, now, actor.operatorId);
  }

  /** What an entry does not carry: two rituals with the same log head can still differ in these. */
  predicate SameBookkeeping(r: Ritual, q: Ritual) {
    && r.startedAt == q.startedAt && r.phase == q.phase
    && r.adjustmentCount == q.adjustmentCount && r.rerollCount == q.rerollCount
  }

  /** A terminal transition is only accepted while both the ritual and the log are pending. */
  lemma TerminalIsPending(key: string, startedAt: nat, entries: seq<LogEntry>, q: Ritual, r: Ritual, c: Command,
                          now: nat, actor: Provenance, p: Proposal)
    requires InSync(key, startedAt, entries, q) && Propose(r, c, now, actor) == Some(p) && TerminalAction(p.recorded)
    requires Accepted(key, entries + [NewEntry(key, entries, r, p, now, actor)])
    requires r.nature.Valid() && p.candidate.nature.Valid() && !ZeroAdjust(p.recorded)
    ensures r.phase == q.phase == AwaitingConfirmation
  {
    hide Parse, Normalize, Replay, Verify, CanonicalActor, IsSha256Text, ValidNatureTransition, WellFormedEntry,
         Chained, NewEntry, ActionOf;
    VerifyAppend(key, entries, NewEntry(key, entries, r, p, now, actor));
    InSyncMeaning(key, startedAt, entries, q);
    GuardsImplyRules(r, c, now, actor, p);
    EntryIsWellFormed(key, entries, r, p, now, actor);
  }

  /**
   However far a ritual is behind its log: when the log still accepts its transition, memory and replay agree
   afterwards exactly when the transition opens a new epoch, or when the ritual already agreed with the log in its
   start time, phase and counters. (Nature, epoch and times are in the entry itself.)
   */
  lemma StaleTransitionExactly(key: string, startedAt: nat, entries: seq<LogEntry>, longer: seq<LogEntry>,
                               r: Ritual, q: Ritual, c: Command, now: nat, actor: Provenance, p: Proposal)
    requires entries <= longer && |longer| < U32_MAX
    requires InSync(key, startedAt, entries, r) && InSync(key, startedAt, longer, q)
    requires Propose(r, c, now, actor) == Some(p)
    requires Accepted(key, longer + [NewEntry(key, longer, r, p, now, actor)])
    ensures InSync(key, startedAt, longer + [NewEntry(key, longer, r, p, now, actor)], p.candidate)
            <==> c.ForceRerollEpoch? || SameBookkeeping(r, q)
  {
    hide Parse, Verify, Propose, Replay, ReplayEntry, NewEntry, TransitionPhase, TerminalAction, LogAdmits;
    var e := NewEntry(key, longer, r, p, now, actor);
    ForcedCommands(r, c, now, actor, p);
    if longer == [] {
      AtTheStart(key, startedAt, r, q);
      LogAdmitsExactly(key, startedAt, longer, r, c, now, actor, p);
      SimulationStep(key, startedAt, longer, r, c, now, actor, p);
    } else {
      AcceptedProposal(key, startedAt, longer, q, r, c, now, actor, p);
      GuardsImplyRules(r, c, now, actor, p);
      NewEntryFields(key, longer, r, p, now, actor);
      assert (longer + [e])[|longer|] == e;
      if c.ForceRerollEpoch? {
        InSyncMeaning(key, startedAt, longer, q);
        NewestEpoch(key, startedAt, longer, q);
        ForcedReplayMatches(key, longer, r, c, now, actor, p);
        ReplayOfOpening(startedAt, longer, e, p.candidate);
      } else {
        if TerminalAction(p.recorded) {
          TerminalIsPending(key, startedAt, longer, q, r, c, now, actor, p);
        }
        ReplayExtends(key, startedAt, longer, q, e);
        StepIsInjective(key, longer, r, q, c, now, actor, p);
      }
    }
  }

  lemma ForcedCommands(r: Ritual, c: Command, now: nat, actor: Provenance, p: Proposal)
    requires Propose(r, c, now, actor) == Some(p)
    ensures c.ForceRerollEpoch? <==> p.recorded.ForcedRerollEpoch?
  {
    hide CanonicalActor, IsSha256Text;
  }

  lemma AtTheStart(key: string, startedAt: nat, r: Ritual, q: Ritual)
    requires InSync(key, startedAt, [], r) && InSync(key, startedAt, [], q)
    ensures SameBookkeeping(r, q)
  {
  }

  lemma FreshAfter(entries: seq<LogEntry>, e: LogEntry, id: string)
    requires forall i :: 0 <= i < |entries| ==> entries[i].body.eventIdSha256 != id
    requires e.body.eventIdSha256 != id
    ensures forall i :: 0 <= i < |entries + [e]| ==> (entries + [e])[i].body.eventIdSha256 != id
  {
  }

  /** One logged adjustment of a pending ritual, as another process may make it. */
  lemma AdjustOnce(key: string, startedAt: nat, entries: seq<LogEntry>, r: Ritual, d: I16, draw: Draw,
                   now: nat, actor: Provenance) returns (p: Proposal)
    requires InSync(key, startedAt, entries, r) && |entries| < U32_MAX - 2
    requires r.phase == AwaitingConfirmation && r.lastEventAt <= now && actor.Valid()
    requires d != 0 && 0 <= r.nature.growth + d <= MAX_SLIDER
    requires forall i :: 0 <= i < |entries| ==> entries[i].body.eventIdSha256 != actor.eventIdSha256
    ensures Propose(r, Apply(Adjust(Growth, d), draw), now, actor) == Some(p)
    ensures InSync(key, startedAt, entries + [NewEntry(key, entries, r, p, now, actor)], p.candidate)
    ensures p.candidate == r.(nature := r.nature.(growth := r.nature.growth + d), lastEventAt := now,
                              adjustmentCount := r.adjustmentCount + 1)
  {
    hide Parse, Verify, Replay, CanonicalActor, IsSha256Text;
    InSyncMeaning(key, startedAt, entries, r);
    var c := Apply(Adjust(Growth, d), draw);
    p := Propose(r, c, now, actor).value;
    SimulationStep(key, startedAt, entries, r, c, now, actor, p);
  }

  /**
   Such rituals exist, two entries behind: when another process raises a slider and lowers it again, a stale
   ritual's confirmation is accepted, and its adjustment counter no longer agrees with the log.
   */
  lemma StaleByTwoDiverges(key: string, startedAt: nat, entries: seq<LogEntry>, r: Ritual, draw: Draw, now: nat,
                           a1: Provenance, a2: Provenance, a3: Provenance)
    returns (longer: seq<LogEntry>, current: Ritual, p: Proposal)
    requires InSync(key, startedAt, entries, r) && |entries| < U32_MAX - 3
    requires r.phase == AwaitingConfirmation && r.lastEventAt <= now && r.nature.growth < MAX_SLIDER
    requires a1.Valid() && a2.Valid() && a3.Valid()
    requires a1.eventIdSha256 != a2.eventIdSha256 && a2.eventIdSha256 != a3.eventIdSha256
    requires a1.eventIdSha256 != a3.eventIdSha256
    requires forall i, a :: 0 <= i < |entries| && a in {a1, a2, a3} ==>
               entries[i].body.eventIdSha256 != a.eventIdSha256
    ensures entries <= longer && |longer| == |entries| + 2 && InSync(key, startedAt, longer, current)
    ensures Propose(r, Apply(Yes, draw), now, a3) == Some(p)
    ensures Accepted(key, longer + [NewEntry(key, longer, r, p, now, a3)])
    ensures !InSync(key, startedAt, longer + [NewEntry(key, longer, r, p, now, a3)], p.candidate)
  {
    hide Parse, Verify, Replay, CanonicalActor, IsSha256Text, Normalize;
    var p1 := AdjustOnce(key, startedAt, entries, r, 1, draw, now, a1);
    var e1 := NewEntry(key, entries, r, p1, now, a1);
    FreshAfter(entries, e1, a2.eventIdSha256);
    FreshAfter(entries, e1, a3.eventIdSha256);
    var p2 := AdjustOnce(key, startedAt, entries + [e1], p1.candidate, -1, draw, now, a2);
    var e2 := NewEntry(key, entries + [e1], p1.candidate, p2, now, a2);
    longer := entries + [e1] + [e2];
    FreshAfter(entries + [e1], e2, a3.eventIdSha256);
    current := p2.candidate;
    assert current.nature == r.nature;
    var c := Apply(Yes, draw);
    p := Propose(r, c, now, a3).value;
    var q := Propose(current, c, now, a3).value;
    assert NewEntry(key, longer, r, p, now, a3) == NewEntry(key, longer, current, q, now, a3);
    SimulationStep(key, startedAt, longer, current, c, now, a3, q);
    StaleTransitionExactly(key, startedAt, entries, longer, r, current, c, now, a3, p);
  }
}
