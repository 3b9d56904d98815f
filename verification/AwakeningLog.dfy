/**
 The signed, append-only awakening log: what one entry carries, how a whole history is re-judged,
 and what every accepted history looks like.

 HMAC and SHA-256 are free constructors, so they are injective and never collide with other text.
 */
module AwakeningLog {
  import opened Integers
  import opened Wrappers
  import opened Text
  import opened Nature
  import opened AwakeningAction

  const AWAKENING_LOG_VERSION: nat := 2
  const AWAKENING_LOG_ALGORITHM := "hmac-sha256"
  const AWAKENING_LOG_HEADER :=
    "# Cthuwu awakening log\n\nSigned, append-only awakening actions. Raw message bodies are never stored.\n\n"
  const MAX_AWAKENING_LOG_BYTES: nat := 1024 * 1024
  const OPERATOR_INBOX_ID_BYTES: nat := 64

  datatype ProvenanceSource = AuthenticatedXmtp | LocalCli

  datatype LogPhase = Pending | Confirmed | Killed | SkippedForTesting | AcceptedByDefault

  datatype Fingerprint = Sha256(nature: TentacleNature) | OtherDigest(text: string)

  datatype Signature = Hmac(key: string, payload: EntryBody) | OtherSignature(text: string)

  datatype EntryBody = EntryBody(
    version: nat,
    sequence: nat,
    epoch: nat,
    timestamp: nat,
    operatorId: string,
    provenance: ProvenanceSource,
    eventIdSha256: string,
    normalizedAction: string,
    predecessorNatureId: string,
    predecessorNatureSha256: Fingerprint,
    predecessorNature: TentacleNature,
    natureId: string,
    natureSha256: Fingerprint,
    nature: TentacleNature,
    phase: LogPhase,
    algorithm: string,
    previousSignature: Option<Signature>)

  datatype LogEntry = LogEntry(body: EntryBody, signature: Signature)

  /** The signed payload names the algorithm constant rather than the entry's own field. */
  function Canonical(body: EntryBody): EntryBody {
    body.(algorithm := AWAKENING_LOG_ALGORITHM)
  }

  // ---------------------------------------------------------------- one entry on its own

  /** `normalize_actor_id(source, id) == id`: trimmed, lower case and of the source's own form. */
  predicate CanonicalActor(source: ProvenanceSource, id: string) {
    match source
    case AuthenticatedXmtp => |id| == OPERATOR_INBOX_ID_BYTES && All(id, IsLowerHex)
    case LocalCli =>
      && 0 < |id| <= OPERATOR_INBOX_ID_BYTES
      && All(id, c => 'a' <= c <= 'z' || IsDigit(c) || c == '-' || c == '_' || c == '.')
  }

  predicate IsSha256Text(s: string) { |s| == 64 && All(s, IsLowerHex) }

  predicate SnapshotMatches(nature: TentacleNature, id: string, digest: Fingerprint) {
    nature.Valid() && id == nature.natureId && digest == Sha256(nature)
  }

  predicate WellFormedEntry(key: string, e: LogEntry) {
    && e.body.version == AWAKENING_LOG_VERSION
    && CanonicalActor(e.body.provenance, e.body.operatorId)
    && IsSha256Text(e.body.eventIdSha256)
    && SnapshotMatches(e.body.predecessorNature, e.body.predecessorNatureId, e.body.predecessorNatureSha256)
    && SnapshotMatches(e.body.nature, e.body.natureId, e.body.natureSha256)
    && e.body.algorithm == AWAKENING_LOG_ALGORITHM
    && e.signature == Hmac(key, Canonical(e.body))
    && Parse(e.body.normalizedAction).Some?
    && Normalize(Parse(e.body.normalizedAction).value) == e.body.normalizedAction
  }

  /** The action an entry's text names; only asked of entries whose text parses. */
  function ActionOf(e: LogEntry): RecordedAction {
    match Parse(e.body.normalizedAction)
    case Some(a) => a
    case None => SkipForTesting
  }

  // ---------------------------------------------------------------- phase and Nature rules

  predicate Completed(phase: LogPhase) { phase != Pending }

  predicate Awakened(phase: LogPhase) {
    phase == Confirmed || phase == SkippedForTesting || phase == AcceptedByDefault
  }

  function TransitionPhase(previous: LogPhase, action: RecordedAction, source: ProvenanceSource,
                           beginsEpoch: bool): Option<LogPhase> {
    if beginsEpoch then
      if Completed(previous) && action.ForcedRerollEpoch? && source == LocalCli then Some(Pending) else None
    else
      match action
      case ForcedRerollEpoch => None
      case Operator(Yes) => if previous == Pending then Some(Confirmed) else None
      case Operator(Kill) => if previous == Pending then Some(Killed) else None
      case Operator(_) => if previous == Pending then Some(Pending) else None
      case SkipForTesting =>
        if previous == Pending && source == LocalCli then Some(SkippedForTesting) else None
      case AcceptDefault =>
        if previous == Pending && source == LocalCli then Some(AcceptedByDefault) else None
      case PostConfirmationAdjust(_, _) => if Awakened(previous) then Some(previous) else None
  }

  predicate ValidRerolledLineage(previous: TentacleNature, current: TentacleNature) {
    SameLineage(previous, current) && previous.natureId != current.natureId
  }

  predicate ValidNatureTransition(previous: TentacleNature, current: TentacleNature,
                                  action: RecordedAction, beginsEpoch: bool) {
    if beginsEpoch then ValidRerolledLineage(previous, current)
    else
      match action
      case Operator(Adjust(t, d)) => previous.Adjust(t, d) == Some(current)
      case Operator(Reroll) => ValidRerolledLineage(previous, current)
      case Operator(_) => previous == current
      case SkipForTesting => previous == current
      case AcceptDefault => previous == current
      case PostConfirmationAdjust(t, v) =>
        previous.Value(t) != v && previous.Adjust(t, v - previous.Value(t)) == Some(current)
      case ForcedRerollEpoch => false
  }

  predicate Rerolls(a: RecordedAction) { a == Operator(Reroll) || a.ForcedRerollEpoch? }

  // ---------------------------------------------------------------- the whole history

  /** What `verify_entries` carries from one entry to the next. */
  datatype LogState = LogState(
    count: nat,
    last: Option<LogEntry>,
    phase: LogPhase,
    eventIds: set<string>,
    natureIds: set<string>)

  const EMPTY_LOG := LogState(0, None, Pending, {}, {})

  function PreviousSignature(st: LogState): Option<Signature> {
    match st.last
    case None => None
    case Some(e) => Some(e.signature)
  }

  function BeginsEpoch(st: LogState, e: LogEntry): bool {
    st.last.Some? && e.body.epoch == st.last.value.body.epoch + 1
  }

  predicate Chained(st: LogState, e: LogEntry) {
    && e.body.sequence == st.count + 1
    && e.body.previousSignature == PreviousSignature(st)
    && e.body.eventIdSha256 !in st.eventIds
    && (match st.last
        case None => e.body.epoch == 1
        case Some(previous) =>
          && previous.body.timestamp <= e.body.timestamp
          && e.body.predecessorNature == previous.body.nature
          && previous.body.epoch < U64_MAX
          && (e.body.epoch == previous.body.epoch || e.body.epoch == previous.body.epoch + 1))
  }

  function KnownNatureIds(st: LogState, e: LogEntry): set<string> {
    if st.last.None? then st.natureIds + {e.body.predecessorNatureId} else st.natureIds
  }

  function Step(key: string, st: LogState, e: LogEntry): Option<LogState> {
    if !WellFormedEntry(key, e) || !Chained(st, e) then None
    else
      var action := ActionOf(e);
      var begins := BeginsEpoch(st, e);
      var known := KnownNatureIds(st, e);
      var phase := TransitionPhase(st.phase, action, e.body.provenance, begins);
      if && phase == Some(e.body.phase)
         && ValidNatureTransition(e.body.predecessorNature, e.body.nature, action, begins)
         && (Rerolls(action) ==> e.body.natureId !in known)
      then Some(LogState(st.count + 1, Some(e), e.body.phase, st.eventIds + {e.body.eventIdSha256},
                         known + {e.body.natureId}))
      else None
  }

  /** `verify_entries`, seen from the end of the history. */
  function Verify(key: string, entries: seq<LogEntry>): Option<LogState> {
    if entries == [] then Some(EMPTY_LOG)
    else
      match Verify(key, entries[..|entries| - 1])
      case None => None
      case Some(st) => Step(key, st, entries[|entries| - 1])
  }

  predicate Accepted(key: string, entries: seq<LogEntry>) { Verify(key, entries).Some? }

  /** Encoded size: the header, then "- ", the JSON of the entry and a newline for each entry. */
  function EncodedBytes(jsonBytes: LogEntry -> nat, entries: seq<LogEntry>): nat {
    if entries == [] then |AWAKENING_LOG_HEADER|
    else EncodedBytes(jsonBytes, entries[..|entries| - 1]) + 3 + jsonBytes(entries[|entries| - 1])
  }

  predicate Fits(jsonBytes: LogEntry -> nat, entries: seq<LogEntry>) {
    EncodedBytes(jsonBytes, entries) <= MAX_AWAKENING_LOG_BYTES
  }

  // ---------------------------------------------------------------- reading the state back

  lemma VerifyAppend(key: string, entries: seq<LogEntry>, e: LogEntry)
    ensures Verify(key, entries + [e]) ==
            match Verify(key, entries) case None => None case Some(st) => Step(key, st, e)
  {
    assert (entries + [e])[..|entries|] == entries;
  }

  lemma {:induction false} PrefixAccepted(key: string, entries: seq<LogEntry>, k: nat)
    requires Accepted(key, entries) && k <= |entries|
    ensures Accepted(key, entries[..k])
  {
    if k == |entries| {
      assert entries[..k] == entries;
    } else {
      var init := entries[..|entries| - 1];
      PrefixAccepted(key, init, k);
      assert init[..k] == entries[..k];
    }
  }

  /** Every entry was accepted in the state its own prefix leads to. */
  lemma EntryAccepted(key: string, entries: seq<LogEntry>, i: nat)
    requires Accepted(key, entries) && i < |entries|
    ensures Accepted(key, entries[..i])
    ensures Step(key, Verify(key, entries[..i]).value, entries[i]).Some?
    ensures Verify(key, entries[..i + 1]) == Step(key, Verify(key, entries[..i]).value, entries[i])
  {
    hide Verify, Step;
    PrefixAccepted(key, entries, i);
    PrefixAccepted(key, entries, i + 1);
    assert entries[..i + 1] == entries[..i] + [entries[i]];
    VerifyAppend(key, entries[..i], entries[i]);
  }

  ghost predicate StateDescribes(st: LogState, entries: seq<LogEntry>) {
    && st.count == |entries|
    && st.last == (if entries == [] then None else Some(entries[|entries| - 1]))
    && st.phase == (if entries == [] then Pending else entries[|entries| - 1].body.phase)
    && (forall id :: id in st.eventIds <==> EventIdIn(entries, id))
    && (forall id :: id in st.natureIds <==> NatureIdIn(entries, id))
  }

  ghost predicate EventIdIn(entries: seq<LogEntry>, id: string) {
    exists i :: 0 <= i < |entries| && entries[i].body.eventIdSha256 == id
  }

  /** The identifiers of every candidate the history has seen, its starting candidate included. */
  ghost predicate NatureIdIn(entries: seq<LogEntry>, id: string) {
    || (entries != [] && entries[0].body.predecessorNatureId == id)
    || (exists i :: 0 <= i < |entries| && entries[i].body.natureId == id)
  }

  lemma {:induction false} StateMeaning(key: string, entries: seq<LogEntry>)
    requires Accepted(key, entries)
    ensures StateDescribes(Verify(key, entries).value, entries)
  {
    hide WellFormedEntry, ActionOf, TransitionPhase, ValidNatureTransition;
    if entries != [] {
      var n := |entries| - 1;
      var init := entries[..n];
      StateMeaning(key, init);
      var e, st0, st := entries[n], Verify(key, init).value, Verify(key, entries).value;
      StepState(key, st0, e);
      hide Verify, Step, NatureIdIn, EventIdIn;
      forall id
        ensures id in st.eventIds <==> EventIdIn(entries, id)
        ensures id in st.natureIds <==> NatureIdIn(entries, id)
      {
        EventIdsOneMore(entries, id);
        NatureIdsOneMore(entries, id);
        if n > 0 {
          assert entries[0] == init[0];
        }
      }
    }
  }

  /** How an accepted step changes the checker's state. */
  lemma StepState(key: string, st: LogState, e: LogEntry)
    requires Step(key, st, e).Some?
    ensures var t := Step(key, st, e).value;
      && t.count == st.count + 1 && t.last == Some(e) && t.phase == e.body.phase
      && t.eventIds == st.eventIds + {e.body.eventIdSha256}
      && t.natureIds == st.natureIds + {e.body.natureId} + if st.last.None? then {e.body.predecessorNatureId} else {}
  {
    hide WellFormedEntry, ActionOf, TransitionPhase, ValidNatureTransition, Parse;
  }

  lemma EventIdsOneMore(entries: seq<LogEntry>, id: string)
    requires entries != []
    ensures EventIdIn(entries, id) <==>
            EventIdIn(entries[..|entries| - 1], id) || entries[|entries| - 1].body.eventIdSha256 == id
  {
    var n := |entries| - 1;
    var init := entries[..n];
    if i :| 0 <= i < |init| && init[i].body.eventIdSha256 == id {
      assert entries[i].body.eventIdSha256 == id;
    }
    if i :| 0 <= i < |entries| && entries[i].body.eventIdSha256 == id {
      if i < n {
        assert init[i].body.eventIdSha256 == id;
      }
    }
  }

  lemma NatureIdsOneMore(entries: seq<LogEntry>, id: string)
    requires entries != []
    ensures NatureIdIn(entries, id) <==>
            || NatureIdIn(entries[..|entries| - 1], id)
            || entries[|entries| - 1].body.natureId == id
            || (|entries| == 1 && entries[0].body.predecessorNatureId == id)
  {
    var n := |entries| - 1;
    var init := entries[..n];
    if i :| 0 <= i < |init| && init[i].body.natureId == id {
      assert entries[i].body.natureId == id;
    }
    if i :| 0 <= i < |entries| && entries[i].body.natureId == id {
      if i < n {
        assert init[i].body.natureId == id;
      }
    }
  }

  // ---------------------------------------------------------------- the rules of a history, told without a pass over it

  /** An entry by itself: of this version, by a well-formed actor and event, with true snapshots, and signed. */
  ghost predicate Authentic(key: string, e: LogEntry) {
    var b := e.body;
    && b.version == AWAKENING_LOG_VERSION && b.algorithm == AWAKENING_LOG_ALGORITHM && e.signature == Hmac(key, b)
    && |b.eventIdSha256| == 64 && All(b.eventIdSha256, IsLowerHex)
    && (b.provenance.AuthenticatedXmtp? ==> |b.operatorId| == 64 && All(b.operatorId, IsLowerHex))
    && (b.provenance.LocalCli? ==>
          0 < |b.operatorId| <= 64
          && forall i :: 0 <= i < |b.operatorId| ==>
               var c := b.operatorId[i]; 'a' <= c <= 'z' || '0' <= c <= '9' || c in {'-', '_', '.'})
    && b.predecessorNature.Valid() && b.predecessorNatureId == b.predecessorNature.natureId
    && b.predecessorNatureSha256 == Sha256(b.predecessorNature)
    && b.nature.Valid() && b.natureId == b.nature.natureId && b.natureSha256 == Sha256(b.nature)
    && exists a :: Parse(b.normalizedAction) == Some(a) && Normalize(a) == b.normalizedAction
  }

  /** Its place: numbered, linked to the entry before it, later than it, and of an event of its own. */
  ghost predicate InPlace(es: seq<LogEntry>, i: nat)
    requires i < |es|
  {
    var b := es[i].body;
    && b.sequence == i + 1 && (forall j :: 0 <= j < i ==> es[j].body.eventIdSha256 != b.eventIdSha256)
    && if i == 0 then b.epoch == 1 && b.previousSignature.None?
       else
         var c := es[i - 1].body;
         && b.previousSignature == Some(es[i - 1].signature) && c.timestamp <= b.timestamp
         && b.predecessorNature == c.nature && (b.epoch == c.epoch || b.epoch == c.epoch + 1) && c.epoch < U64_MAX
  }

  /** The phase that an action needs, who may take it, and the phase it leads to. */
  predicate PhaseFits(before: LogPhase, a: RecordedAction, source: ProvenanceSource, after: LogPhase) {
    && (a.Operator? || a.SkipForTesting? || a.AcceptDefault? ==> before == Pending)
    && (a.PostConfirmationAdjust? ==> before in {Confirmed, SkippedForTesting, AcceptedByDefault} && after == before)
    && (a.ForcedRerollEpoch? ==> before != Pending)
    && (a.SkipForTesting? || a.AcceptDefault? || a.ForcedRerollEpoch? ==> source == LocalCli)
    && (a == Operator(Yes) <==> after == Confirmed && !a.PostConfirmationAdjust?)
    && (a == Operator(Kill) <==> after == Killed)
    && (a.SkipForTesting? <==> after == SkippedForTesting && !a.PostConfirmationAdjust?)
    && (a.AcceptDefault? <==> after == AcceptedByDefault && !a.PostConfirmationAdjust?)
  }

  /** What an action makes of the Nature. */
  ghost predicate NatureFits(before: TentacleNature, a: RecordedAction, after: TentacleNature) {
    match a
    case Operator(Adjust(t, d)) => OnlySlider(before, t, before.Value(t) + d, after)
    case PostConfirmationAdjust(t, v) => before.Value(t) != v && OnlySlider(before, t, v, after)
    case Operator(Reroll) => SameLineage(before, after) && before.natureId != after.natureId
    case ForcedRerollEpoch => SameLineage(before, after) && before.natureId != after.natureId
    case _ => before == after
  }

  /** Its action fits: the epoch begins with a forced reroll, and a rerolled identifier is new to the history. */
  ghost predicate ActionInPlace(es: seq<LogEntry>, i: nat)
    requires i < |es|
  {
    var b, a := es[i].body, ActionOf(es[i]);
    && (a.ForcedRerollEpoch? <==> i > 0 && b.epoch == es[i - 1].body.epoch + 1)
    && PhaseFits(if i == 0 then Pending else es[i - 1].body.phase, a, b.provenance, b.phase)
    && NatureFits(b.predecessorNature, a, b.nature)
    && (a == Operator(Reroll) || a.ForcedRerollEpoch? ==>
          b.natureId != es[0].body.predecessorNatureId && forall j :: 0 <= j < i ==> es[j].body.natureId != b.natureId)
  }

  lemma WellFormedIsAuthentic(key: string, e: LogEntry)
    ensures WellFormedEntry(key, e) <==> Authentic(key, e)
  {
    hide Parse, Normalize;
    assert e.body.algorithm == AWAKENING_LOG_ALGORITHM ==> Canonical(e.body) == e.body;
  }

  lemma TransitionsFit(before: LogPhase, a: RecordedAction, source: ProvenanceSource, begins: bool, after: LogPhase)
    ensures TransitionPhase(before, a, source, begins) == Some(after)
            <==> (begins <==> a.ForcedRerollEpoch?) && PhaseFits(before, a, source, after)
  {
  }

  lemma NaturesFit(before: TentacleNature, a: RecordedAction, begins: bool, after: TentacleNature)
    requires before.Valid() && after.Valid() && (begins <==> a.ForcedRerollEpoch?)
    ensures ValidNatureTransition(before, after, a, begins) <==> NatureFits(before, a, after)
  {
    if a.Operator? && a.action.Adjust? {
      AdjustMovesOneSlider(before, a.action.natureTrait, a.action.delta, after);
    } else if a.PostConfirmationAdjust? {
      AdjustMovesOneSlider(before, a.natureTrait, a.value - before.Value(a.natureTrait), after);
    }
  }

  /** The checks of one entry, in the state that its prefix leads to, are the rules of its place. */
  lemma StepIsInPlace(key: string, es: seq<LogEntry>, i: nat)
    requires i < |es| && Accepted(key, es[..i])
    ensures Step(key, Verify(key, es[..i]).value, es[i]).Some?
            <==> Authentic(key, es[i]) && InPlace(es, i) && ActionInPlace(es, i)
  {
    hide Parse, Normalize, Verify, TransitionPhase, ValidNatureTransition, Authentic, PhaseFits, NatureFits,
         WellFormedEntry, ActionOf, NatureIdIn, EventIdIn;
    var e, st := es[i], Verify(key, es[..i]).value;
    var a, begins := ActionOf(e), BeginsEpoch(st, e);
    StateMeaning(key, es[..i]);
    WellFormedIsAuthentic(key, e);
    PlacedEvents(es, i);
    PlacedNatures(es, i);
    TransitionsFit(st.phase, a, e.body.provenance, begins, e.body.phase);
    if Authentic(key, e) {
      SnapshotsAreValid(key, e);
      if begins <==> a.ForcedRerollEpoch? {
        NaturesFit(e.body.predecessorNature, a, begins, e.body.nature);
      }
    }
  }

  lemma SnapshotsAreValid(key: string, e: LogEntry)
    requires Authentic(key, e)
    ensures e.body.predecessorNature.Valid() && e.body.nature.Valid()
    ensures e.body.predecessorNatureId == e.body.predecessorNature.natureId
  {
  }

  lemma PlacedEvents(es: seq<LogEntry>, i: nat)
    requires i < |es|
    ensures EventIdIn(es[..i], es[i].body.eventIdSha256)
            <==> exists j :: 0 <= j < i && es[j].body.eventIdSha256 == es[i].body.eventIdSha256
  {
    assert forall j :: 0 <= j < i ==> es[..i][j] == es[j];
  }

  lemma PlacedNatures(es: seq<LogEntry>, i: nat)
    requires i < |es|
    ensures NatureIdIn(es[..i], es[i].body.natureId) <==>
            || (i > 0 && es[0].body.predecessorNatureId == es[i].body.natureId)
            || exists j :: 0 <= j < i && es[j].body.natureId == es[i].body.natureId
  {
    assert forall j :: 0 <= j < i ==> es[..i][j] == es[j];
  }

  /**
   The one pass of verification decides exactly these rules: a history is accepted if and only if every entry is
   authentic, in its place, and its action fits there.
   */
  lemma {:induction false} AcceptedExactly(key: string, es: seq<LogEntry>)
    ensures Accepted(key, es)
            <==> forall i :: 0 <= i < |es| ==> Authentic(key, es[i]) && InPlace(es, i) && ActionInPlace(es, i)
  {
    hide Authentic, InPlace, ActionInPlace, Step;
    if es != [] {
      var n := |es| - 1;
      AcceptedExactly(key, es[..n]);
      forall i | 0 <= i < n
        ensures InPlace(es[..n], i) <==> InPlace(es, i)
        ensures ActionInPlace(es[..n], i) <==> ActionInPlace(es, i)
      {
        PlacesInPrefix(es, n, i);
      }
      if Accepted(key, es[..n]) {
        StepIsInPlace(key, es, n);
      }
    }
  }

  lemma PlacesInPrefix(es: seq<LogEntry>, n: nat, i: nat)
    requires i < n <= |es|
    ensures InPlace(es[..n], i) <==> InPlace(es, i)
    ensures ActionInPlace(es[..n], i) <==> ActionInPlace(es, i)
  {
    hide ActionOf, PhaseFits, NatureFits;
    assert forall j :: 0 <= j <= i ==> es[..n][j] == es[j];
  }

  // ---------------------------------------------------------------- the chain identifies the log

  /** The signature covers the whole entry, its sequence number included. */
  lemma SameSignatureSameEntry(key: string, s: LogState, a: LogEntry, t: LogState, b: LogEntry)
    requires Step(key, s, a).Some? && Step(key, t, b).Some? && a.signature == b.signature
    ensures a == b && s.count == t.count && PreviousSignature(s) == PreviousSignature(t)
  {
    hide Parse, Normalize, TransitionPhase, ValidNatureTransition, CanonicalActor, SnapshotMatches;
    assert Canonical(a.body) == Canonical(b.body);
    assert a.body == Canonical(a.body) && b.body == Canonical(b.body);
  }

  /**
   Two accepted logs that end in the same signature are the same log: the signature fixes the last
   entry, its sequence number fixes the length, and its previous signature fixes the rest.
   */
  lemma {:induction false} SameHeadSameLog(key: string, a: seq<LogEntry>, b: seq<LogEntry>)
    requires Accepted(key, a) && Accepted(key, b) && a != [] && b != []
    requires a[|a| - 1].signature == b[|b| - 1].signature
    ensures a == b
    decreases |a|
  {
    hide Step, Verify, NatureIdIn, EventIdIn;
    var m, n := |a| - 1, |b| - 1;
    EntryAccepted(key, a, m);
    EntryAccepted(key, b, n);
    StateMeaning(key, a[..m]);
    StateMeaning(key, b[..n]);
    SameSignatureSameEntry(key, Verify(key, a[..m]).value, a[m], Verify(key, b[..n]).value, b[n]);
    if m > 0 {
      assert a[..m][m - 1].signature == b[..n][n - 1].signature;
      SameHeadSameLog(key, a[..m], b[..n]);
    }
    assert a == a[..m] + [a[m]];
    assert b == b[..n] + [b[n]];
  }

  // ---------------------------------------------------------------- the grammar of a history

  predicate PendingAction(a: RecordedAction) { a.Operator? && (a.action.Adjust? || a.action.Reroll?) }

  predicate TerminalAction(a: RecordedAction) {
    a == Operator(Yes) || a == Operator(Kill) || a.SkipForTesting? || a.AcceptDefault?
  }

  /** The entries of one epoch, oldest first. */
  function EpochEntries(entries: seq<LogEntry>, epoch: nat): (r: seq<LogEntry>)
    ensures forall e :: e in r ==> e in entries && e.body.epoch == epoch
    ensures |r| <= |entries|
  {
    if entries == [] then []
    else
      var rest := EpochEntries(entries[..|entries| - 1], epoch);
      var e := entries[|entries| - 1];
      if e.body.epoch == epoch then rest + [e] else rest
  }

  lemma EpochEntriesAppend(entries: seq<LogEntry>, e: LogEntry, epoch: nat)
    ensures EpochEntries(entries + [e], epoch) ==
            EpochEntries(entries, epoch) + if e.body.epoch == epoch then [e] else []
  {
    assert (entries + [e])[..|entries|] == entries;
  }

  /**
   One epoch: a forced reroll opens every epoch but the first, `p` opening and pending actions come
   before the one terminal action, and only post-confirmation adjustments follow it, never a kill.
   */
  predicate EpochForm(es: seq<LogEntry>, p: nat, epoch: nat) {
    && p <= |es|
    && (epoch > 1 ==> p > 0 && ActionOf(es[0]).ForcedRerollEpoch? && es[0].body.provenance == LocalCli)
    && (forall i :: 0 <= i < p ==> PendingAction(ActionOf(es[i])) || (i == 0 && epoch > 1))
    && (p < |es| ==> TerminalAction(ActionOf(es[p])))
    && (forall i :: p < i < |es| ==> ActionOf(es[i]).PostConfirmationAdjust?)
    && (p + 1 < |es| ==> ActionOf(es[p]) != Operator(Kill))
  }

  function PhaseAfter(a: RecordedAction): LogPhase {
    match a
    case Operator(Yes) => Confirmed
    case Operator(Kill) => Killed
    case SkipForTesting => SkippedForTesting
    case AcceptDefault => AcceptedByDefault
    case _ => Pending
  }

  /** The phase an epoch's form leaves behind. */
  function FormPhase(es: seq<LogEntry>, p: nat): LogPhase {
    if p < |es| then PhaseAfter(ActionOf(es[p])) else Pending
  }

  /** Epoch `epoch` of a history has its form; it is complete unless it is the last, whose phase is `phase`. */
  ghost predicate EpochFormed(entries: seq<LogEntry>, epoch: nat, last: nat, phase: LogPhase) {
    var es := EpochEntries(entries, epoch);
    exists p: nat ::
      && EpochForm(es, p, epoch)
      && (epoch < last ==> p < |es|)
      && (epoch == last ==> FormPhase(es, p) == phase)
  }

  ghost predicate LogForm(entries: seq<LogEntry>) {
    entries != [] ==>
      var last := entries[|entries| - 1].body.epoch;
      && 1 <= last <= |entries|
      && (forall i :: 0 <= i < |entries| ==> 1 <= entries[i].body.epoch <= last)
      && EpochsFormed(entries, last, entries[|entries| - 1].body.phase)
  }

  ghost predicate EpochsFormed(entries: seq<LogEntry>, last: nat, phase: LogPhase) {
    forall epoch: nat :: 1 <= epoch <= last ==> EpochFormed(entries, epoch, last, phase)
  }

  lemma NoLaterEpoch(entries: seq<LogEntry>, epoch: nat)
    requires forall i :: 0 <= i < |entries| ==> entries[i].body.epoch < epoch
    ensures EpochEntries(entries, epoch) == []
  {
  }

  /** A step inside the current epoch extends that epoch's form and agrees with its phase. */
  lemma SameEpochForm(key: string, st: LogState, e: LogEntry, es: seq<LogEntry>, p: nat, epoch: nat)
    returns (q: nat)
    requires Step(key, st, e).Some? && !BeginsEpoch(st, e)
    requires EpochForm(es, p, epoch) && FormPhase(es, p) == st.phase
    ensures EpochForm(es + [e], q, epoch) && FormPhase(es + [e], q) == e.body.phase
  {
    hide Parse, WellFormedEntry, ValidNatureTransition, Chained;
    var a := ActionOf(e);
    if PendingAction(a) {
      q := p + 1;
      assert p == |es|;
      assert (es + [e])[p] == e;
    } else {
      q := p;
      if p == |es| {
        assert (es + [e])[p] == e;
      } else {
        assert (es + [e])[p] == es[p];
      }
    }
  }

  /** What one accepted step says about epochs and phases, apart from the entry's contents. */
  lemma StepEpochs(key: string, st: LogState, e: LogEntry)
    requires Step(key, st, e).Some?
    ensures st.last.None? ==> e.body.epoch == 1
    ensures st.last.Some? ==> st.last.value.body.epoch <= e.body.epoch <= st.last.value.body.epoch + 1
    ensures BeginsEpoch(st, e) ==>
              && Completed(st.phase) && e.body.phase == Pending
              && ActionOf(e).ForcedRerollEpoch? && e.body.provenance == LocalCli
  {
    hide Parse, WellFormedEntry, ValidNatureTransition;
  }

  lemma EarlierEpochKept(init: seq<LogEntry>, e: LogEntry, epoch: nat, previous: nat, phase: LogPhase)
    requires EpochFormed(init, epoch, previous, phase)
    requires epoch <= previous && epoch < e.body.epoch
    requires epoch == previous ==> Completed(phase)
    ensures EpochFormed(init + [e], epoch, e.body.epoch, e.body.phase)
  {
    hide EpochForm, Parse;
    EpochEntriesAppend(init, e, epoch);
    var es := EpochEntries(init, epoch);
    assert EpochEntries(init + [e], epoch) == es;
    var p: nat :| EpochForm(es, p, epoch) && (epoch < previous ==> p < |es|)
                  && (epoch == previous ==> FormPhase(es, p) == phase);
    assert p < |es|;
  }

  lemma CurrentEpochExtended(key: string, st: LogState, init: seq<LogEntry>, e: LogEntry)
    requires Step(key, st, e).Some? && !BeginsEpoch(st, e)
    requires if st.last.None? then init == [] && st.phase == Pending
             else EpochFormed(init, e.body.epoch, e.body.epoch, st.phase)
    ensures EpochFormed(init + [e], e.body.epoch, e.body.epoch, e.body.phase)
  {
    hide Parse, WellFormedEntry, ValidNatureTransition, TransitionPhase;
    StepEpochs(key, st, e);
    var epoch := e.body.epoch;
    EpochEntriesAppend(init, e, epoch);
    var es := EpochEntries(init, epoch);
    var p: nat :| EpochForm(es, p, epoch) && FormPhase(es, p) == st.phase;
    var q := SameEpochForm(key, st, e, es, p, epoch);
  }

  lemma NewEpochOpened(key: string, st: LogState, init: seq<LogEntry>, e: LogEntry)
    requires Step(key, st, e).Some? && BeginsEpoch(st, e)
    requires forall i :: 0 <= i < |init| ==> init[i].body.epoch < e.body.epoch
    requires e.body.epoch > 1
    ensures EpochFormed(init + [e], e.body.epoch, e.body.epoch, e.body.phase)
  {
    hide Parse, WellFormedEntry, ValidNatureTransition, TransitionPhase;
    StepEpochs(key, st, e);
    EpochEntriesAppend(init, e, e.body.epoch);
    NoLaterEpoch(init, e.body.epoch);
    assert EpochEntries(init + [e], e.body.epoch) == [e];
    assert EpochForm([e], 1, e.body.epoch) && FormPhase([e], 1) == Pending;
  }

  /** One entry more keeps the form of every epoch. */
  lemma EpochStillFormed(key: string, st: LogState, init: seq<LogEntry>, e: LogEntry, epoch: nat)
    requires init != [] && Step(key, st, e).Some? && 1 <= epoch <= e.body.epoch
    requires st.last == Some(init[|init| - 1]) && st.phase == init[|init| - 1].body.phase
    requires var last := init[|init| - 1].body;
      && (forall i :: 0 <= i < |init| ==> 1 <= init[i].body.epoch <= last.epoch)
      && (epoch <= last.epoch ==> EpochFormed(init, epoch, last.epoch, last.phase))
    ensures EpochFormed(init + [e], epoch, e.body.epoch, e.body.phase)
  {
    hide EpochFormed, EpochEntries, Step, BeginsEpoch, ActionOf, Parse;
    var last := init[|init| - 1].body;
    StepEpochs(key, st, e);
    BeginsMeans(st, e);
    if epoch < e.body.epoch {
      EarlierEpochKept(init, e, epoch, last.epoch, last.phase);
    } else if epoch == last.epoch {
      CurrentEpochExtended(key, st, init, e);
    } else {
      NewEpochOpened(key, st, init, e);
    }
  }

  /** Every accepted history is a run of complete epochs from one, then the current epoch. */
  lemma {:induction false} AcceptedLogForm(key: string, entries: seq<LogEntry>)
    requires Accepted(key, entries)
    ensures LogForm(entries)
  {
    hide EpochFormed, EpochEntries, Step, BeginsEpoch, Verify;
    if entries != [] {
      var n := |entries| - 1;
      var init, e := entries[..n], entries[n];
      EntryAccepted(key, entries, n);
      AcceptedLogForm(key, init);
      HeadMeaning(key, init);
      assert entries == init + [e];
      var st := Verify(key, init).value;
      StepEpochs(key, st, e);
      BeginsMeans(st, e);
      if n == 0 {
        CurrentEpochExtended(key, st, init, e);
      } else {
        assert forall i :: 0 <= i < n ==> entries[i] == init[i];
        forall epoch: nat | 1 <= epoch <= e.body.epoch
          ensures EpochFormed(entries, epoch, e.body.epoch, e.body.phase)
        {
          EpochStillFormed(key, st, init, e, epoch);
        }
      }
    }
  }

  lemma HeadMeaning(key: string, entries: seq<LogEntry>)
    requires Accepted(key, entries)
    ensures var st := Verify(key, entries).value;
      if entries == [] then st.last == None && st.phase == Pending && st.count == 0
      else
        && st.last == Some(entries[|entries| - 1]) && st.count == |entries|
        && st.phase == entries[|entries| - 1].body.phase
  {
    StateMeaning(key, entries);
  }

  lemma BeginsMeans(st: LogState, e: LogEntry)
    ensures BeginsEpoch(st, e) <==> st.last.Some? && e.body.epoch == st.last.value.body.epoch + 1
  {
  }

  /** A log within the size limit is too short for any of the source's counters to overflow. */
  lemma {:induction false} FittingLogIsShort(jsonBytes: LogEntry -> nat, entries: seq<LogEntry>)
    ensures EncodedBytes(jsonBytes, entries) >= 3 * |entries|
    ensures Fits(jsonBytes, entries) ==> |entries| < U32_MAX
  {
    if entries != [] {
      FittingLogIsShort(jsonBytes, entries[..|entries| - 1]);
    }
  }
}
