/**
 The referral payout: one journal per acolyte, written before the broadcast, over the shared nonce
 allocations. Attempts for different acolytes interleave, attempts for one acolyte follow each other (the
 journal does not guard against two at once), any attempt may stop between two actions, other requests may
 allocate nonces at any time, and every count, receipt and recovered hash is an arbitrary report.
 */
module ReferralBounty {
  import opened Integers
  import opened Wrappers
  import Signer = SignerJournal

  const CANONICAL_UWU: string := "UWU"

  /** The caller may repeat what it remembers of the transaction; it must then agree with the journal. */
  datatype Operation = Operation(
    acolyte: string,
    referrer: string,
    amountBaseUnits: nat,
    transactionHash: Option<string>,
    transactionNonce: Option<nat>)

  datatype Journal = Journal(
    referrer: string,
    amountBaseUnits: nat,
    actionId: string,
    nonce: nat,
    fromBlock: nat,
    transactionHash: Option<string>)

  function PayoutRequest(actionId: string, referrer: string, amount: nat): Signer.Request {
    Signer.Branding(actionId, Signer.ReferralBounty, CANONICAL_UWU, Signer.Transfer(referrer, amount))
  }

  function RequestOf(j: Journal): Signer.Request { PayoutRequest(j.actionId, j.referrer, j.amountBaseUnits) }

  /** `loadReferralJournal`: a request that does not repeat the journaled payout exactly is refused. */
  predicate Matches(j: Journal, op: Operation, actionId: string) {
    && j.referrer == op.referrer && j.amountBaseUnits == op.amountBaseUnits && j.actionId == actionId
    && (op.transactionHash.Some? ==> j.transactionHash == op.transactionHash)
    && (op.transactionNonce.Some? ==> j.nonce == op.transactionNonce.value)
  }

  datatype Stage =
    | Asked
    | Loaded(journal: Option<Journal>)
    | Windowed(journal: Option<Journal>, pending: int, nonce: nat)
    | Installed(journal: Option<Journal>, pending: int, nonce: nat)
    | Allocated(journal: Option<Journal>, nonce: nat)
    | Journaled(entry: Journal)
    | Sent(entry: Journal)

  datatype Attempt = Attempt(operation: Operation, actionId: string, stage: Stage)

  datatype Payout = Payout(acolyte: string, nonce: nat, destination: string, data: Signer.TxData)

  datatype State = State(
    files: map<nat, Signer.Allocation>,
    journals: map<string, Journal>,
    running: map<string, Attempt>,
    payouts: seq<Payout>)

  datatype Report = Report(
    pending: int,
    latest: int,
    recovered: Option<string>,
    funded: bool,
    blockNumber: nat,
    transactionHash: string)

  datatype Event =
    | Begin(operation: Operation, actionId: string)
    | Advance(acolyte: string, report: Report)
    | Stop(acolyte: string)
    | Other(allocation: Signer.Allocation)

  const FRESH := State(map[], map[], map[], [])

  function Stopped(s: State, a: string): State { s.(running := s.running - {a}) }

  function At(s: State, a: string, stage: Stage): State
    requires a in s.running
  {
    s.(running := s.running[a := s.running[a].(stage := stage)])
  }

  /** A journal that already has its hash only ever leads to a receipt check. */
  function Load(s: State, a: string): State
    requires a in s.running
  {
    var t := s.running[a];
    if a in s.journals then
      if !Matches(s.journals[a], t.operation, t.actionId) || s.journals[a].transactionHash.Some? then Stopped(s, a)
      else At(s, a, Loaded(Some(s.journals[a])))
    else if t.operation.transactionHash.Some? then Stopped(s, a)
    else At(s, a, Loaded(None))
  }

  /** A journaled nonce below the confirmed count is recovered or given up, never sent again. */
  function ReadCounts(s: State, a: string, journal: Option<Journal>, report: Report): State
    requires a in s.running
  {
    if journal.Some? && report.latest > journal.value.nonce then
      if report.recovered.None? then Stopped(s, a)
      else Stopped(s, a).(journals := s.journals[a := journal.value.(transactionHash := report.recovered)])
    else if report.funded && Signer.BrandingWindow(report.pending, report.latest) then
      At(s, a, Windowed(journal, report.pending, report.latest))
    else Stopped(s, a)
  }

  function Reserve(s: State, a: string, journal: Option<Journal>, pending: int, nonce: nat): State
    requires a in s.running
  {
    var wanted := Signer.Allocation(nonce, PayoutOf(s.running[a]));
    At(s, a, Installed(journal, pending, nonce))
      .(files := if pending == nonce then Signer.Install(s.files, wanted) else s.files)
  }

  function PayoutOf(t: Attempt): Signer.Request {
    PayoutRequest(t.actionId, t.operation.referrer, t.operation.amountBaseUnits)
  }

  function Check(s: State, a: string, journal: Option<Journal>, pending: int, nonce: nat): State
    requires a in s.running
  {
    var wanted := Signer.Allocation(nonce, PayoutOf(s.running[a]));
    if Signer.Compare(s.files, wanted, pending).Ok? && (journal.Some? ==> journal.value.nonce == nonce)
    then At(s, a, Allocated(journal, nonce)) else Stopped(s, a)
  }

  /** The payout and its nonce are durable before anything is broadcast. */
  function WriteJournal(s: State, a: string, journal: Option<Journal>, nonce: nat, report: Report): State
    requires a in s.running
  {
    var t := s.running[a];
    match journal
    case Some(j) => At(s, a, Journaled(j))
    case None =>
      var j := Journal(t.operation.referrer, t.operation.amountBaseUnits, t.actionId, nonce, report.blockNumber, None);
      At(s, a, Journaled(j)).(journals := s.journals[a := j])
  }

  function Transmit(s: State, a: string, journal: Journal): State
    requires a in s.running
  {
    var t := s.running[a].operation;
    At(s, a, Sent(journal))
      .(payouts := s.payouts
          + [Payout(a, journal.nonce, CANONICAL_UWU, Signer.Transfer(t.referrer, t.amountBaseUnits))])
  }

  function RecordHash(s: State, a: string, journal: Journal, report: Report): State {
    Stopped(s, a).(journals := s.journals[a := journal.(transactionHash := Some(report.transactionHash))])
  }

  function Next(s: State, e: Event): State {
    match e
    case Begin(operation, actionId) =>
      if operation.acolyte in s.running then s
      else s.(running := s.running[operation.acolyte := Attempt(operation, actionId, Asked)])
    case Stop(a) => Stopped(s, a)
    case Other(allocation) => s.(files := Signer.Install(s.files, allocation))
    case Advance(a, report) =>
      if a !in s.running then s
      else
        match s.running[a].stage
        case Asked => Load(s, a)
        case Loaded(journal) => ReadCounts(s, a, journal, report)
        case Windowed(journal, pending, nonce) => Reserve(s, a, journal, pending, nonce)
        case Installed(journal, pending, nonce) => Check(s, a, journal, pending, nonce)
        case Allocated(journal, nonce) => WriteJournal(s, a, journal, nonce, report)
        case Journaled(journal) => Transmit(s, a, journal)
        case Sent(journal) => RecordHash(s, a, journal, report)
  }

  function Run(s: State, events: seq<Event>): State {
    if events == [] then s else Next(Run(s, events[..|events| - 1]), events[|events| - 1])
  }

  // ---------------------------------------------------------------- the invariant

  /** What an attempt remembers of the journal is what is on disk. */
  predicate Remembers(s: State, a: string, journal: Option<Journal>) {
    match journal
    case Some(j) => a in s.journals && s.journals[a] == j
    case None => a !in s.journals
  }

  predicate OwnJournal(t: Attempt, journal: Option<Journal>) {
    journal.Some? ==> RequestOf(journal.value) == PayoutOf(t)
  }

  predicate NonceIsReserved(s: State, nonce: nat, request: Signer.Request) {
    nonce in s.files && s.files[nonce] == Signer.Allocation(nonce, request)
  }

  predicate AttemptOk(s: State, a: string, t: Attempt) {
    && t.operation.acolyte == a
    && match t.stage
       case Asked => true
       case Loaded(journal) => Remembers(s, a, journal) && OwnJournal(t, journal)
       case Windowed(journal, _, _) => Remembers(s, a, journal) && OwnJournal(t, journal)
       case Installed(journal, _, _) => Remembers(s, a, journal) && OwnJournal(t, journal)
       case Allocated(journal, nonce) =>
         && Remembers(s, a, journal) && OwnJournal(t, journal) && NonceIsReserved(s, nonce, PayoutOf(t))
         && (journal.Some? ==> journal.value.nonce == nonce)
       case Journaled(j) =>
         Remembers(s, a, Some(j)) && RequestOf(j) == PayoutOf(t) && NonceIsReserved(s, j.nonce, PayoutOf(t))
       case Sent(j) => Remembers(s, a, Some(j)) && RequestOf(j) == PayoutOf(t)
  }

  predicate PayoutOk(s: State, p: Payout) {
    && p.acolyte in s.journals
    && var j := s.journals[p.acolyte];
       && p.nonce == j.nonce && p.destination == RequestOf(j).destination && p.data == RequestOf(j).data
       && NonceIsReserved(s, j.nonce, RequestOf(j))
  }

  ghost predicate Inv(s: State) {
    && (forall n :: n in s.files ==> s.files[n].nonce == n)
    && (forall a :: a in s.running ==> AttemptOk(s, a, s.running[a]))
    && (forall p :: p in s.payouts ==> PayoutOk(s, p))
  }

  /** Only the transaction hash of a journal ever changes. */
  predicate SamePayout(j: Journal, k: Journal) { j.(transactionHash := None) == k.(transactionHash := None) }

  ghost predicate Extends(s: State, t: State) {
    && (forall n :: n in s.files ==> n in t.files && t.files[n] == s.files[n])
    && (forall a :: a in s.journals ==> a in t.journals && SamePayout(s.journals[a], t.journals[a]))
    && s.payouts <= t.payouts
  }

  /** A step of one acolyte's attempt leaves every other acolyte's journal and attempt alone. */
  ghost predicate StepOk(s: State, t: State, actor: string) {
    && Extends(s, t)
    && (forall n :: n in t.files ==> t.files[n].nonce == n)
    && (forall a :: a != actor ==> (a in t.journals <==> a in s.journals)
                                   && (a in s.journals ==> t.journals[a] == s.journals[a]))
    && (forall a :: a in t.running && a != actor ==> a in s.running && t.running[a] == s.running[a])
    && (actor in t.running ==> AttemptOk(t, actor, t.running[actor]))
    && (forall i :: |s.payouts| <= i < |t.payouts| ==> PayoutOk(t, t.payouts[i]))
  }

  lemma OtherAttemptKeeps(s: State, t: State, actor: string, a: string)
    requires StepOk(s, t, actor) && a != actor && a in s.running && AttemptOk(s, a, s.running[a])
    ensures AttemptOk(t, a, s.running[a])
  {
  }

  lemma PayoutKeeps(s: State, t: State, p: Payout)
    requires Extends(s, t) && PayoutOk(s, p)
    ensures PayoutOk(t, p)
  {
  }

  lemma StepKeepsInv(s: State, t: State, actor: string)
    requires Inv(s) && StepOk(s, t, actor)
    ensures Inv(t) && Extends(s, t)
  {
    hide AttemptOk, PayoutOk;
    forall a | a in t.running
      ensures AttemptOk(t, a, t.running[a])
    {
      if a != actor {
        OtherAttemptKeeps(s, t, actor, a);
      }
    }
    forall p | p in t.payouts
      ensures PayoutOk(t, p)
    {
      var i :| 0 <= i < |t.payouts| && t.payouts[i] == p;
      if i < |s.payouts| {
        assert s.payouts[i] == p;
        PayoutKeeps(s, t, p);
      }
    }
  }

  ghost predicate Poised(s: State, a: string) {
    a in s.running && AttemptOk(s, a, s.running[a]) && forall n :: n in s.files ==> s.files[n].nonce == n
  }

  lemma LoadOk(s: State, a: string)
    requires Poised(s, a) && s.running[a].stage.Asked?
    ensures StepOk(s, Load(s, a), a)
  {
    hide PayoutOk;
  }

  lemma ReadCountsOk(s: State, a: string, report: Report)
    requires Poised(s, a) && s.running[a].stage.Loaded?
    ensures StepOk(s, ReadCounts(s, a, s.running[a].stage.journal, report), a)
  {
    hide PayoutOk;
  }

  lemma ReservingOk(s: State, a: string)
    requires Poised(s, a)
    ensures var g := s.running[a].stage;
      && (g.Windowed? ==> StepOk(s, Reserve(s, a, g.journal, g.pending, g.nonce), a))
      && (g.Installed? ==> StepOk(s, Check(s, a, g.journal, g.pending, g.nonce), a))
  {
    hide PayoutOk;
  }

  lemma WriteJournalOk(s: State, a: string, report: Report)
    requires Poised(s, a) && s.running[a].stage.Allocated?
    ensures StepOk(s, WriteJournal(s, a, s.running[a].stage.journal, s.running[a].stage.nonce, report), a)
  {
    hide PayoutOk;
  }

  lemma RecordHashOk(s: State, a: string, report: Report)
    requires Poised(s, a) && s.running[a].stage.Sent?
    ensures StepOk(s, RecordHash(s, a, s.running[a].stage.entry, report), a)
  {
    hide PayoutOk;
  }

  lemma TransmitOk(s: State, a: string)
    requires Poised(s, a) && s.running[a].stage.Journaled?
    ensures StepOk(s, Transmit(s, a, s.running[a].stage.entry), a)
  {
  }

  lemma NextKeepsInv(s: State, e: Event)
    requires Inv(s)
    ensures Inv(Next(s, e)) && Extends(s, Next(s, e))
  {
    hide PayoutOk, Load, ReadCounts, Reserve, Check, WriteJournal, Transmit, RecordHash;
    var t := Next(s, e);
    if e.Advance? && e.acolyte in s.running {
      assert Poised(s, e.acolyte);
      AdvanceOk(s, e.acolyte, e.report);
      StepKeepsInv(s, t, e.acolyte);
    } else if e.Begin? {
      StepKeepsInv(s, t, e.operation.acolyte);
    } else if e.Stop? {
      StepKeepsInv(s, t, e.acolyte);
    } else if e.Other? {
      OtherKeepsInv(s, e.allocation);
    }
  }

  lemma OtherKeepsInv(s: State, allocation: Signer.Allocation)
    requires Inv(s)
    ensures Inv(Next(s, Other(allocation))) && Extends(s, Next(s, Other(allocation)))
  {
    var t := Next(s, Other(allocation));
    forall p | p in t.payouts
      ensures PayoutOk(t, p)
    {
      PayoutKeeps(s, t, p);
    }
  }

  lemma AdvanceOk(s: State, a: string, report: Report)
    requires Poised(s, a)
    ensures StepOk(s, Next(s, Advance(a, report)), a)
  {
    hide StepOk, Load, ReadCounts, Reserve, Check, WriteJournal, Transmit, RecordHash, AttemptOk;
    match s.running[a].stage
    case Asked => LoadOk(s, a);
    case Loaded(_) => ReadCountsOk(s, a, report);
    case Windowed(_, _, _) => ReservingOk(s, a);
    case Installed(_, _, _) => ReservingOk(s, a);
    case Allocated(_, _) => WriteJournalOk(s, a, report);
    case Journaled(_) => TransmitOk(s, a);
    case Sent(_) => RecordHashOk(s, a, report);
  }

  lemma {:induction false} RunKeepsInv(s: State, events: seq<Event>)
    requires Inv(s)
    ensures Inv(Run(s, events)) && Extends(s, Run(s, events))
  {
    if events != [] {
      var n := |events| - 1;
      var before := Run(s, events[..n]);
      RunKeepsInv(s, events[..n]);
      NextKeepsInv(before, events[n]);
      ExtendsTwice(s, before, Run(s, events));
    } else {
      ExtendsItself(s);
    }
  }

  lemma ExtendsItself(s: State)
    ensures Extends(s, s)
  {
  }

  lemma ExtendsTwice(s: State, t: State, u: State)
    requires Extends(s, t) && Extends(t, u)
    ensures Extends(s, u)
  {
  }

  // ---------------------------------------------------------------- what the runs promise

  /** Every payout ever broadcast for one acolyte has the same journaled nonce and the same calldata. */
  lemma OnePayoutPerAcolyte(events: seq<Event>, i: nat, j: nat)
    requires i < |Run(FRESH, events).payouts| && j < |Run(FRESH, events).payouts|
    requires Run(FRESH, events).payouts[i].acolyte == Run(FRESH, events).payouts[j].acolyte
    ensures Run(FRESH, events).payouts[i] == Run(FRESH, events).payouts[j]
    ensures var p := Run(FRESH, events).payouts[i];
            p.acolyte in Run(FRESH, events).journals && Run(FRESH, events).journals[p.acolyte].nonce == p.nonce
  {
    RunKeepsInv(FRESH, events);
    var s := Run(FRESH, events);
    assert PayoutOk(s, s.payouts[i]) && PayoutOk(s, s.payouts[j]);
  }

  /** Some request of the run asked for exactly this payout. */
  ghost predicate AskedFor(events: seq<Event>, acolyte: string, referrer: string, amount: nat, actionId: string) {
    exists i :: 0 <= i < |events| && events[i].Begin? && events[i].actionId == actionId
                && events[i].operation.acolyte == acolyte && events[i].operation.referrer == referrer
                && events[i].operation.amountBaseUnits == amount
  }

  ghost predicate JournalsAsked(events: seq<Event>, s: State) {
    && (forall a :: a in s.running ==>
          var t := s.running[a]; AskedFor(events, a, t.operation.referrer, t.operation.amountBaseUnits, t.actionId))
    && (forall a :: a in s.journals ==>
          var j := s.journals[a]; AskedFor(events, a, j.referrer, j.amountBaseUnits, j.actionId))
  }

  lemma {:induction false} RunIsAskedFor(events: seq<Event>)
    ensures JournalsAsked(events, Run(FRESH, events))
  {
    if events != [] {
      hide Next, AskedFor;
      var n := |events| - 1;
      RunIsAskedFor(events[..n]);
      RunKeepsInv(FRESH, events[..n]);
      AskedForMore(events);
      StepIsAskedFor(events, Run(FRESH, events[..n]));
    }
  }

  lemma AskedForMore(events: seq<Event>)
    requires events != []
    ensures forall a, referrer, amount, actionId ::
              AskedFor(events[..|events| - 1], a, referrer, amount, actionId)
              ==> AskedFor(events, a, referrer, amount, actionId)
    ensures var e := events[|events| - 1];
      e.Begin? ==>
        AskedFor(events, e.operation.acolyte, e.operation.referrer, e.operation.amountBaseUnits, e.actionId)
  {
  }

  /** A step of an attempt journals nothing but the request of this attempt. */
  ghost predicate OnlyOwnJournal(s: State, t: State, a: string)
    requires a in s.running
  {
    && (forall b :: b in t.running ==> b in s.running && t.running[b].operation == s.running[b].operation
                                       && t.running[b].actionId == s.running[b].actionId)
    && (forall b :: b in t.journals ==>
          || (b in s.journals && SamePayout(s.journals[b], t.journals[b]))
          || (b == a && RequestOf(t.journals[b]) == PayoutOf(s.running[a])))
  }

  lemma LoadingIsOwn(s: State, a: string)
    requires a in s.running && s.running[a].stage.Asked?
    ensures OnlyOwnJournal(s, Load(s, a), a)
  {
    hide Matches, RequestOf, PayoutOf;
  }

  lemma CountingIsOwn(s: State, a: string, report: Report)
    requires a in s.running && s.running[a].stage.Loaded? && AttemptOk(s, a, s.running[a])
    ensures OnlyOwnJournal(s, ReadCounts(s, a, s.running[a].stage.journal, report), a)
  {
    hide Signer.BrandingWindow, RequestOf, PayoutOf;
  }

  lemma ReservingIsOwn(s: State, a: string)
    requires a in s.running
    ensures var g := s.running[a].stage;
      && (g.Windowed? ==> OnlyOwnJournal(s, Reserve(s, a, g.journal, g.pending, g.nonce), a))
      && (g.Installed? ==> OnlyOwnJournal(s, Check(s, a, g.journal, g.pending, g.nonce), a))
  {
    hide Signer.Compare, PayoutOf;
  }

  lemma SendingIsOwn(s: State, a: string, report: Report)
    requires a in s.running && AttemptOk(s, a, s.running[a])
    ensures var g := s.running[a].stage;
      && (g.Allocated? ==> OnlyOwnJournal(s, WriteJournal(s, a, g.journal, g.nonce, report), a))
      && (g.Journaled? ==> OnlyOwnJournal(s, Transmit(s, a, g.entry), a))
      && (g.Sent? ==> OnlyOwnJournal(s, RecordHash(s, a, g.entry, report), a))
  {
  }

  lemma AdvanceIsOwn(s: State, a: string, report: Report)
    requires a in s.running && AttemptOk(s, a, s.running[a])
    ensures OnlyOwnJournal(s, Next(s, Advance(a, report)), a)
  {
    hide AttemptOk, OnlyOwnJournal, Load, ReadCounts, Reserve, Check, WriteJournal, Transmit, RecordHash;
    match s.running[a].stage
    case Asked => LoadingIsOwn(s, a);
    case Loaded(_) => CountingIsOwn(s, a, report);
    case Windowed(_, _, _) => ReservingIsOwn(s, a);
    case Installed(_, _, _) => ReservingIsOwn(s, a);
    case Allocated(_, _) => SendingIsOwn(s, a, report);
    case Journaled(_) => SendingIsOwn(s, a, report);
    case Sent(_) => SendingIsOwn(s, a, report);
  }

  lemma StepIsAskedFor(events: seq<Event>, s: State)
    requires events != [] && Inv(s) && JournalsAsked(events, s)
    requires var e := events[|events| - 1];
      e.Begin? ==>
        AskedFor(events, e.operation.acolyte, e.operation.referrer, e.operation.amountBaseUnits, e.actionId)
    ensures JournalsAsked(events, Next(s, events[|events| - 1]))
  {
    hide AskedFor, PayoutOk, AttemptOk;
    var e := events[|events| - 1];
    if e.Advance? && e.acolyte in s.running {
      AdvanceIsOwn(s, e.acolyte, e.report);
      hide Next;
    }
  }

  /**
   Every payout ever broadcast pays the referrer and the amount that some request of the run named for this acolyte,
   in the canonical token, under the journaled nonce; and the journal says so.
   */
  lemma PayoutsAreAskedFor(events: seq<Event>, i: nat)
    requires i < |Run(FRESH, events).payouts|
    ensures var s, p := Run(FRESH, events), Run(FRESH, events).payouts[i];
      && p.acolyte in s.journals
      && var j := s.journals[p.acolyte];
         && p == Payout(p.acolyte, j.nonce, CANONICAL_UWU, Signer.Transfer(j.referrer, j.amountBaseUnits))
         && AskedFor(events, p.acolyte, j.referrer, j.amountBaseUnits, j.actionId)
  {
    hide AskedFor;
    RunKeepsInv(FRESH, events);
    RunIsAskedFor(events);
    var s := Run(FRESH, events);
    assert PayoutOk(s, s.payouts[i]);
  }

  function Step(s: State, a: string, report: Report): State { Next(s, Advance(a, report)) }

  function Steps(s: State, a: string, report: Report, n: nat): State {
    if n == 0 then s else Step(Steps(s, a, report, n - 1), a, report)
  }

  /** The journal on disk allows this attempt to send: none yet, or the same unsent payout at the confirmed count. */
  predicate JournalAllows(s: State, t: Attempt, latest: int) {
    var a, op := t.operation.acolyte, t.operation;
    if a !in s.journals then op.transactionHash.None?
    else
      var j := s.journals[a];
      && j.referrer == op.referrer && j.amountBaseUnits == op.amountBaseUnits && j.actionId == t.actionId
      && j.transactionHash.None? && op.transactionHash.None? && j.nonce == latest
      && (op.transactionNonce.Some? ==> op.transactionNonce.value == j.nonce)
  }

  /** The journal that an attempt found. */
  function Found(s: State, a: string): Option<Journal> { if a in s.journals then Some(s.journals[a]) else None }

  /** Reading journal and counts: afterwards the attempt waits with the confirmed count, or was stopped. */
  lemma UntilWindow(s: State, a: string, r: Report)
    requires a in s.running && s.running[a].stage.Asked? && s.running[a].operation.acolyte == a
    ensures var u, t := Steps(s, a, r, 2), s.running[a];
      && u.files == s.files && u.payouts == s.payouts
      && (a in u.running ==>
            && u.journals == s.journals && r.funded && Window(r)
            && u.running[a] == t.(stage := Windowed(Found(s, a), r.pending, r.latest))
            && (a in s.journals ==> (JournalAllows(s, t, r.latest) <==> s.journals[a].nonce == r.latest))
            && (a !in s.journals ==> JournalAllows(s, t, r.latest)))
      && (a !in u.running ==> !(JournalAllows(s, t, r.latest) && r.funded && Window(r)))
  {
    var one := Step(s, a, r);
    assert Steps(s, a, r, 0) == s && Steps(s, a, r, 1) == one;
    assert one == Load(s, a);
    if a in one.running {
      assert Step(one, a, r) == ReadCounts(one, a, Found(s, a), r);
    }
  }

  /** A journaled nonce that was confirmed is never sent again: its hash is recovered, or the attempt gives up. */
  lemma ConfirmedIsRecovered(s: State, a: string, r: Report)
    requires a in s.running && s.running[a].stage.Loaded? && s.running[a].stage.journal.Some?
    requires r.latest > s.running[a].stage.journal.value.nonce
    ensures var t, j := Step(s, a, r), s.running[a].stage.journal.value;
      && a !in t.running && t.payouts == s.payouts && t.files == s.files
      && t.journals == if r.recovered.Some? then s.journals[a := j.(transactionHash := r.recovered)] else s.journals
  {
  }

  /** Reserving and checking the nonce. */
  lemma UntilAllocation(s: State, a: string, r: Report)
    requires a in s.running && s.running[a].stage.Windowed?
    ensures var u, t, g := Step(Step(s, a, r), a, r), s.running[a], s.running[a].stage;
      var request := Signer.Branding(t.actionId, Signer.ReferralBounty, CANONICAL_UWU,
                                     Signer.Transfer(t.operation.referrer, t.operation.amountBaseUnits));
      && u.journals == s.journals && u.payouts == s.payouts
      && (a in u.running <==>
            && Signer.Grantable(s.files, Signer.Allocation(g.nonce, request), g.pending)
            && (g.journal.Some? ==> g.journal.value.nonce == g.nonce))
      && (a in u.running ==> u.running[a] == t.(stage := Allocated(g.journal, g.nonce)))
  {
    var one := Step(s, a, r);
    var g := s.running[a].stage;
    assert one == Reserve(s, a, g.journal, g.pending, g.nonce);
    assert Step(one, a, r) == Check(one, a, g.journal, g.pending, g.nonce);
  }

  /** Journal, broadcast, hash. */
  lemma UntilRecorded(s: State, a: string, r: Report)
    requires a in s.running && s.running[a].stage.Allocated?
    requires s.running[a].stage.journal.Some? ==> s.running[a].stage.journal.value.nonce == s.running[a].stage.nonce
    ensures var u, t := Step(Step(Step(s, a, r), a, r), a, r), s.running[a];
      && u.payouts == s.payouts + [Payout(a, t.stage.nonce, CANONICAL_UWU,
                                          Signer.Transfer(t.operation.referrer, t.operation.amountBaseUnits))]
      && a in u.journals && u.journals[a].transactionHash == Some(r.transactionHash)
  {
    var one := Step(s, a, r);
    var g := s.running[a].stage;
    assert one == WriteJournal(s, a, g.journal, g.nonce, r);
    var j := one.running[a].stage.entry;
    assert Step(one, a, r) == Transmit(one, a, j);
  }

  /**
   Exactly which attempts are paid, when nothing comes between their steps: funded ones at the only executable nonce,
   if the journal allows it and the nonce file is free and pending or holds the identical request. The journal then
   keeps the hash of the transaction.
   */
  lemma AttemptIsPaidExactly(s: State, a: string, r: Report)
    requires a in s.running && s.running[a].stage.Asked? && s.running[a].operation.acolyte == a
    ensures var t, op := Steps(s, a, r, 7), s.running[a].operation;
      var transfer := Signer.Transfer(op.referrer, op.amountBaseUnits);
      var request := Signer.Branding(s.running[a].actionId, Signer.ReferralBounty, CANONICAL_UWU, transfer);
      if && JournalAllows(s, s.running[a], r.latest) && r.funded
         && Window(r)
         && Signer.Grantable(s.files, Signer.Allocation(r.latest, request), r.pending)
      then
        && t.payouts == s.payouts + [Payout(a, r.latest, CANONICAL_UWU, transfer)]
        && a in t.journals && t.journals[a].transactionHash == Some(r.transactionHash)
      else t.payouts == s.payouts
  {
    hide JournalAllows, Signer.Grantable, Window, Step;
    UntilWindow(s, a, r);
    var u := Steps(s, a, r, 2);
    if a in u.running {
      UntilAllocation(u, a, r);
      var v := Step(Step(u, a, r), a, r);
      StepsAdd(s, a, r, 2, 2);
      StepsAdd(s, a, r, 4, 3);
      assert Steps(u, a, r, 2) == v == Steps(s, a, r, 4);
      assert Steps(v, a, r, 0) == v && Steps(v, a, r, 1) == Step(v, a, r);
      assert Steps(v, a, r, 2) == Step(Step(v, a, r), a, r);
      assert Steps(v, a, r, 3) == Step(Step(Step(v, a, r), a, r), a, r);
      if a in v.running {
        UntilRecorded(v, a, r);
      } else {
        StaysStopped(v, a, r, 3);
      }
    } else {
      StaysStopped(u, a, r, 5);
      StepsAdd(s, a, r, 2, 5);
    }
  }

  /** At most one transaction of the wallet is pending. */
  predicate Window(r: Report) {
    0 <= r.latest <= r.pending <= r.latest + 1 && r.pending <= MAX_SAFE_INTEGER
  }

  lemma {:induction false} StepsAdd(s: State, a: string, r: Report, m: nat, n: nat)
    ensures Steps(Steps(s, a, r, m), a, r, n) == Steps(s, a, r, m + n)
  {
    hide Step;
    if n > 0 {
      StepsAdd(s, a, r, m, n - 1);
    }
  }

  lemma {:induction false} StaysStopped(s: State, a: string, r: Report, n: nat)
    requires a !in s.running
    ensures Steps(s, a, r, n) == s
  {
    if n > 0 {
      StaysStopped(s, a, r, n - 1);
    }
  }

  /** A chain holds one transaction per nonce, each of which had been broadcast. */
  ghost predicate Mined(chain: map<nat, Payout>, payouts: seq<Payout>) {
    forall n :: n in chain ==> chain[n] in payouts && chain[n].nonce == n
  }

  /** So at most one payout per acolyte can ever be mined. */
  lemma AtMostOneMined(events: seq<Event>, chain: map<nat, Payout>, n: nat, m: nat)
    requires Mined(chain, Run(FRESH, events).payouts)
    requires n in chain && m in chain && chain[n].acolyte == chain[m].acolyte
    ensures n == m
  {
    var s := Run(FRESH, events);
    var i :| 0 <= i < |s.payouts| && s.payouts[i] == chain[n];
    var j :| 0 <= j < |s.payouts| && s.payouts[j] == chain[m];
    OnePayoutPerAcolyte(events, i, j);
  }

  /** Once the journal keeps a hash, only receipts are checked: whatever follows, nothing more is broadcast. */
  ghost predicate Recorded(s: State, a: string) {
    a in s.journals && s.journals[a].transactionHash.Some? && (a in s.running ==> s.running[a].stage.Asked?)
  }

  lemma RecordedStep(s: State, e: Event, a: string)
    requires Recorded(s, a)
    ensures Recorded(Next(s, e), a) && PayoutsFor(Next(s, e), a) == PayoutsFor(s, a)
  {
    hide PayoutsFor;
    if e.Advance? && e.acolyte == a && a in s.running {
      assert Next(s, e) == Load(s, a);
      SamePayouts(s, Next(s, e), a);
    } else {
      OtherStepSparesAcolyte(s, e, a);
      OtherStepSparesJournal(s, e, a);
    }
  }

  lemma SamePayouts(s: State, t: State, a: string)
    requires s.payouts == t.payouts
    ensures PayoutsFor(s, a) == PayoutsFor(t, a)
  {
  }

  lemma OtherStepSparesJournal(s: State, e: Event, a: string)
    requires !(e.Advance? && e.acolyte == a && a in s.running) && a in s.journals
    ensures a in Next(s, e).journals && Next(s, e).journals[a] == s.journals[a]
  {
  }

  lemma {:induction false} NoPayoutAfterRecording(s: State, more: seq<Event>, a: string)
    requires Recorded(s, a)
    ensures Recorded(Run(s, more), a) && PayoutsFor(Run(s, more), a) == PayoutsFor(s, a)
  {
    hide Next, Recorded, PayoutsFor;
    if more != [] {
      var n := |more| - 1;
      NoPayoutAfterRecording(s, more[..n], a);
      RecordedStep(Run(s, more[..n]), more[n], a);
    }
  }

  /** Past its nonce read, an attempt may still send; before it, the confirmed count decides. */
  predicate NotYetCounted(s: State, a: string) {
    a in s.running ==> s.running[a].stage.Asked? || s.running[a].stage.Loaded?
  }

  /** Every count reported from here on shows the journaled nonce of the acolyte as confirmed. */
  ghost predicate ReportsConfirmed(events: seq<Event>, nonce: nat) {
    forall i :: 0 <= i < |events| && events[i].Advance? ==> events[i].report.latest > nonce
  }

  function PayoutsFor(s: State, a: string): set<int> {
    set i | 0 <= i < |s.payouts| && s.payouts[i].acolyte == a
  }

  ghost predicate Settled(s: State, a: string, nonce: nat) {
    && a in s.journals && s.journals[a].nonce == nonce && NotYetCounted(s, a)
    && (a in s.running && s.running[a].stage.Loaded? ==> s.running[a].stage.journal.Some?)
  }

  lemma ConfirmedStep(s: State, e: Event, a: string, nonce: nat)
    requires Inv(s) && Settled(s, a, nonce) && (e.Advance? ==> e.report.latest > nonce)
    ensures Settled(Next(s, e), a, nonce) && PayoutsFor(Next(s, e), a) == PayoutsFor(s, a)
  {
    NextKeepsInv(s, e);
    var t := Next(s, e);
    if e.Advance? && e.acolyte == a && a in s.running {
      assert AttemptOk(s, a, s.running[a]);
      assert t.payouts == s.payouts;
    } else {
      OtherStepSparesAcolyte(s, e, a);
    }
  }

  lemma OtherStepSparesAcolyte(s: State, e: Event, a: string)
    requires !(e.Advance? && e.acolyte == a && a in s.running)
    ensures var t := Next(s, e);
      && PayoutsFor(t, a) == PayoutsFor(s, a)
      && (a in t.running && a in s.running ==> t.running[a] == s.running[a])
      && (a in t.running && a !in s.running ==> t.running[a].stage == Asked)
  {
  }

  /**
   Once the confirmed count shows the journaled nonce as used, however often the payout is retried and
   wherever it crashes, nothing is broadcast for that acolyte again.
   */
  lemma {:induction false} NoPayoutAfterConfirmation(events: seq<Event>, more: seq<Event>, a: string)
    requires var s := Run(FRESH, events);
      a in s.journals && NotYetCounted(s, a) && ReportsConfirmed(more, s.journals[a].nonce)
    ensures PayoutsFor(Run(Run(FRESH, events), more), a) == PayoutsFor(Run(FRESH, events), a)
    ensures Settled(Run(Run(FRESH, events), more), a, Run(FRESH, events).journals[a].nonce)
  {
    hide Next;
    var s := Run(FRESH, events);
    RunKeepsInv(FRESH, events);
    if more == [] {
      LoadedRemembers(s, a);
    } else {
      var n := |more| - 1;
      NoPayoutAfterConfirmation(events, more[..n], a);
      RunKeepsInv(s, more[..n]);
      ConfirmedStep(Run(s, more[..n]), more[n], a, s.journals[a].nonce);
    }
  }

  lemma LoadedRemembers(s: State, a: string)
    requires Inv(s) && a in s.journals && NotYetCounted(s, a)
    ensures Settled(s, a, s.journals[a].nonce)
  {
    if a in s.running {
      assert AttemptOk(s, a, s.running[a]);
    }
  }
}
