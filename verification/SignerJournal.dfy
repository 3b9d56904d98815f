/**
 The durable nonce allocations that registry writes, Branding phases and referral payouts share, and the
 single mint allocation that a registration needs.

 Requests run interleaved, one durable or observable action at a time; any of them may stop between two
 actions, and every pending or latest count is an arbitrary report. The wallet is the one production wallet.
 Fingerprints and calldata hashes are injective, so an allocation is modelled by what it hashes.
 */
module SignerJournal {
  import opened Integers
  import opened Wrappers

  /** The proof of complete discovery that a registration carries; only its identity matters here. */
  datatype MintAuthorization = MintAuthorization(fingerprint: string)

  datatype WriteOperation =
    | Register(nonce: nat, mintAuthorization: Option<MintAuthorization>)
    | SetAgentUri(nonce: nat, agentId: string, agentURI: string)
    | SetMetadata(nonce: nat, agentId: string, key: string, value: string)
    | SetAgentWallet(nonce: nat, agentId: string)

  datatype Phase = Approve | Mint | NameTrait | BrandAvatar | ReferralBounty

  /** Transaction data by what it encodes: an ERC-20 transfer, or any other prepared call. */
  datatype TxData = Transfer(recipient: string, amount: nat) | Prepared(bytes: string)

  datatype Request =
    | Write(actionId: string, operation: WriteOperation)
    | Branding(actionId: string, phase: Phase, destination: string, data: TxData)

  /** A nonce file: version 1 for registry writes, version 2 for Branding and referral transactions. */
  datatype Allocation = Allocation(nonce: nat, request: Request)

  datatype MintAllocation = MintAllocation(fingerprint: string, actionId: string, nonce: nat)

  /** Registry calldata is fixed by the operation, except for what a wallet signature covers: owner and deadline. */
  datatype Calldata =
    | RegisterCall
    | UriCall(agentId: string, agentURI: string)
    | MetadataCall(agentId: string, key: string, value: string)
    | WalletCall(agentId: string, owner: string, deadline: nat)
    | RawCall(destination: string, data: TxData)

  function CalldataFor(request: Request, owner: string, deadline: nat): Calldata {
    match request
    case Write(_, Register(_, _)) => RegisterCall
    case Write(_, SetAgentUri(_, agentId, agentURI)) => UriCall(agentId, agentURI)
    case Write(_, SetMetadata(_, agentId, key, value)) => MetadataCall(agentId, key, value)
    case Write(_, SetAgentWallet(_, agentId)) => WalletCall(agentId, owner, deadline)
    case Branding(_, _, destination, data) => RawCall(destination, data)
  }

  predicate IsSafeInteger(n: int) { -(MAX_SAFE_INTEGER as int) <= n <= MAX_SAFE_INTEGER }

  // ---------------------------------------------------------------- the pure checks

  function AssertTransactionNonceWindow(requested: nat, pending: int, latest: int,
                                        exactAllocationExists: bool): (r: Result<nat, string>)
    ensures r.Ok? ==> r.value == requested && latest <= requested <= pending
    ensures r.Ok? && requested < pending ==> exactAllocationExists
    ensures r.Ok? <==>
            && IsSafeInteger(pending) && IsSafeInteger(latest) && latest <= requested <= pending
            && (requested == pending || exactAllocationExists)
    ensures r.Err? ==>
              r.error == if !IsSafeInteger(pending) || !IsSafeInteger(latest) || pending < latest then "nonce_state"
                         else if requested < latest then "nonce_consumed"
                         else if requested > pending then "nonce_gap"
                         else "nonce_unallocated"
  {
    if !IsSafeInteger(pending) || !IsSafeInteger(latest) || pending < latest then Err("nonce_state")
    else if requested < latest then Err("nonce_consumed")
    else if requested > pending then Err("nonce_gap")
    else if requested < pending && !exactAllocationExists then Err("nonce_unallocated")
    else Ok(requested)
  }

  /** Branding only ever uses the one executable nonce, with at most one transaction pending. */
  predicate BrandingWindow(pending: int, latest: int) {
    && IsSafeInteger(pending) && IsSafeInteger(latest)
    && 0 <= latest <= pending <= latest + 1
  }

  /** Create-exclusive: an existing file is never replaced. */
  function Install(files: map<nat, Allocation>, wanted: Allocation): (r: map<nat, Allocation>)
    ensures wanted.nonce in r && forall n :: n in files ==> n in r && r[n] == files[n]
    ensures forall n :: n in r ==> n in files || (n == wanted.nonce && r[n] == wanted)
  {
    if wanted.nonce in files then files else files[wanted.nonce := wanted]
  }

  function ConflictCode(request: Request): string {
    if request.Write? then "nonce_allocation_conflict" else "signer_busy"
  }

  function MissingCode(request: Request): string {
    if request.Write? then "nonce_unallocated" else "signer_busy"
  }

  /**
   The file at the nonce must be exactly this allocation. A file of the other kind has other keys, which is refused
   as such, except that for a Branding nonce in flight it only means that the signer is busy.
   */
  function Compare(files: map<nat, Allocation>, wanted: Allocation, pending: int): Result<bool, string> {
    if wanted.nonce !in files then Err(MissingCode(wanted.request))
    else if files[wanted.nonce] == wanted then Ok(true)
    else if files[wanted.nonce].request.Write? != wanted.request.Write?
            && (wanted.request.Write? || pending <= wanted.nonce)
    then Err("invalid_request")
    else Err(ConflictCode(wanted.request))
  }

  /** A nonce is granted to its exact earlier allocation, or, while it is the pending one, to the first that asks. */
  predicate Grantable(files: map<nat, Allocation>, wanted: Allocation, pending: int) {
    if wanted.nonce in files then files[wanted.nonce] == wanted else wanted.nonce == pending
  }

  // ---------------------------------------------------------------- the journals as an object

  class SignerState {
    var allocations: map<nat, Allocation>
    var mintAllocation: Option<MintAllocation>

    constructor ()
      ensures allocations == map[] && mintAllocation == None
    {
      allocations, mintAllocation := map[], None;
    }

    method InstallSignerAllocation(allocation: Allocation) returns (installed: bool)
      modifies this`allocations
      ensures installed <==> allocation.nonce !in old(allocations)
      ensures allocations == Install(old(allocations), allocation)
    {
      if allocation.nonce in allocations {
        return false;
      }
      allocations := allocations[allocation.nonce := allocation];
      return true;
    }

    /** One allocation, without another request in between: exact replay, fresh reservation, or refusal. */
    method AuthorizeSignerNonce(request: Request, requestedNonce: nat, pendingNonce: int)
      returns (r: Result<bool, string>)
      requires request.Write?
      modifies this`allocations
      ensures r.Ok? <==>
              && IsSafeInteger(requestedNonce) && IsSafeInteger(pendingNonce)
              && Grantable(old(allocations), Allocation(requestedNonce, request), pendingNonce)
      ensures r.Err? ==>
                r.error == if !IsSafeInteger(requestedNonce) || !IsSafeInteger(pendingNonce) then "nonce_state"
                           else if requestedNonce !in old(allocations) then "nonce_unallocated"
                           else if old(allocations)[requestedNonce].request.Branding? then "invalid_request"
                           else "nonce_allocation_conflict"
      ensures r.Ok? ==> (r.value <==> requestedNonce in old(allocations))
      ensures r.Ok? ==> allocations == old(allocations)[requestedNonce := Allocation(requestedNonce, request)]
      ensures r.Err? ==> allocations == old(allocations)
    {
      if !IsSafeInteger(requestedNonce) || !IsSafeInteger(pendingNonce) {
        return Err("nonce_state");
      }
      var allocation := Allocation(requestedNonce, request);
      var existed := true;
      if requestedNonce == pendingNonce {
        var installed := InstallSignerAllocation(allocation);
        existed := !installed;
      }
      var compared := Compare(allocations, allocation, pendingNonce);
      if compared.Err? {
        return Err(compared.error);
      }
      return Ok(existed);
    }

    method AuthorizeBrandingSignerNonce(request: Request, pendingNonce: int, latestNonce: int)
      returns (r: Result<(nat, bool), string>)
      requires request.Branding?
      modifies this`allocations
      ensures r.Ok? <==>
              && 0 <= latestNonce <= pendingNonce <= latestNonce + 1 && pendingNonce <= MAX_SAFE_INTEGER
              && Grantable(old(allocations), Allocation(latestNonce, request), pendingNonce)
      ensures r.Err? ==>
                r.error == if 0 <= latestNonce == pendingNonce <= MAX_SAFE_INTEGER && latestNonce in old(allocations)
                              && old(allocations)[latestNonce].request.Write?
                           then "invalid_request" else "signer_busy"
      ensures r.Ok? ==> r.value.0 == latestNonce && (r.value.1 <==> latestNonce in old(allocations))
      ensures r.Ok? ==> allocations == old(allocations)[latestNonce := Allocation(latestNonce, request)]
      ensures r.Err? ==> allocations == old(allocations)
    {
      if !BrandingWindow(pendingNonce, latestNonce) {
        return Err("signer_busy");
      }
      var allocation := Allocation(latestNonce, request);
      var existed := true;
      if pendingNonce == latestNonce {
        var installed := InstallSignerAllocation(allocation);
        existed := !installed;
      }
      var compared := Compare(allocations, allocation, pendingNonce);
      if compared.Err? {
        return Err(compared.error);
      }
      return Ok((latestNonce, existed));
    }

    /** The mint allocation is given out once; only the same action at the same nonce may come back. */
    method BindMintAuthorizationUse(authorization: MintAuthorization, actionId: string, nonce: nat)
      returns (r: Result<bool, string>)
      modifies this`mintAllocation
      ensures r.Ok? <==> old(mintAllocation).None? || Replays(old(mintAllocation).value, actionId, nonce)
      ensures mintAllocation ==
              if old(mintAllocation).None? then Some(MintAllocation(authorization.fingerprint, actionId, nonce))
              else old(mintAllocation)
    {
      if mintAllocation.None? {
        mintAllocation := Some(MintAllocation(authorization.fingerprint, actionId, nonce));
        return Ok(true);
      }
      if !Replays(mintAllocation.value, actionId, nonce) {
        return Err("mint_authorization_reused");
      }
      return Ok(false);
    }
  }

  predicate Replays(m: MintAllocation, actionId: string, nonce: nat) {
    m.actionId == actionId && m.nonce == nonce
  }

  // ---------------------------------------------------------------- interleaved requests

  datatype Stage =
    | Asked
    | MintRead(exactReplay: bool)
    | MintChecked
    | Ready
    | Windowed(pending: int, nonce: nat)
    | Installed(pending: int, nonce: nat, existed: bool)
    | Authorized(pending: int, nonce: nat, existed: bool)

  datatype Process = Process(request: Request, stage: Stage)

  /** `author` is the request that was broadcast, `existed` what its allocation step found. */
  datatype Broadcast = Broadcast(process: nat, nonce: nat, request: Request, calldata: Calldata, pending: int)

  /** `installedBy` only records who created each file; the code does not know it. */
  datatype State = State(
    files: map<nat, Allocation>,
    mint: Option<MintAllocation>,
    running: map<nat, Process>,
    started: nat,
    broadcasts: seq<Broadcast>,
    installedBy: map<nat, nat>)

  /** What the provider, the discovery journal and the clock answer at one step; anything at all. */
  datatype Report = Report(pending: int, latest: int, covered: int, discoveryAllows: bool, owner: string,
                           deadline: nat)

  datatype Event = Begin(request: Request) | Advance(id: nat, report: Report) | Stop(id: nat)

  const FRESH := State(map[], None, map[], 0, [], map[])

  function Stopped(s: State, id: nat): State { s.(running := s.running - {id}) }

  function At(s: State, id: nat, stage: Stage): State
    requires id in s.running
  {
    s.(running := s.running[id := s.running[id].(stage := stage)])
  }

  /** `authorizeRegistrationMint` up to its first read: a registration without a proof goes nowhere. */
  function ReadMint(s: State, id: nat): State
    requires id in s.running
  {
    var request := s.running[id].request;
    if !(request.Write? && request.operation.Register?) then At(s, id, Ready)
    else if request.operation.mintAuthorization.None? then Stopped(s, id)
    else
      var exactReplay := s.mint.Some? && Replays(s.mint.value, request.actionId, request.operation.nonce);
      if s.mint.Some? && !exactReplay then Stopped(s, id) else At(s, id, MintRead(exactReplay))
  }

  /** A first registration needs a nonce that complete discovery covers; a replay does not ask again. */
  function CheckMint(s: State, id: nat, exactReplay: bool, report: Report): State
    requires id in s.running && s.running[id].request.Write?
  {
    var nonce := s.running[id].request.operation.nonce;
    if report.discoveryAllows
       && (exactReplay || (&& report.pending == report.covered
                           && AssertTransactionNonceWindow(nonce, report.pending, report.covered, false).Ok?))
    then At(s, id, MintChecked) else Stopped(s, id)
  }

  function BindMint(s: State, id: nat): State
    requires id in s.running && s.running[id].request.Write?
    requires s.running[id].request.operation.Register? && s.running[id].request.operation.mintAuthorization.Some?
  {
    var request := s.running[id].request;
    var nonce := request.operation.nonce;
    if s.mint.None? then
      var allocation := MintAllocation(request.operation.mintAuthorization.value.fingerprint, request.actionId, nonce);
      At(s, id, Ready).(mint := Some(allocation))
    else if Replays(s.mint.value, request.actionId, nonce) then At(s, id, Ready)
    else Stopped(s, id)
  }

  function ReadWindow(s: State, id: nat, report: Report): State
    requires id in s.running
  {
    match s.running[id].request
    case Write(_, operation) =>
      var nonce := AssertTransactionNonceWindow(operation.nonce, report.pending, report.latest, true);
      if nonce.Ok? && IsSafeInteger(operation.nonce)
      then At(s, id, Windowed(report.pending, operation.nonce)) else Stopped(s, id)
    case Branding(_, _, _, _) =>
      if BrandingWindow(report.pending, report.latest)
      then At(s, id, Windowed(report.pending, report.latest)) else Stopped(s, id)
  }

  /** Only the nonce that the provider reports as pending may be reserved anew. */
  function InstallNonce(s: State, id: nat, pending: int, nonce: nat): State
    requires id in s.running
  {
    if nonce == pending then
      var existed := nonce in s.files;
      var installed := At(s, id, Installed(pending, nonce, existed));
      if existed then installed
      else installed.(files := s.files[nonce := Allocation(nonce, s.running[id].request)],
                      installedBy := s.installedBy[nonce := id])
    else At(s, id, Installed(pending, nonce, true))
  }

  function CompareNonce(s: State, id: nat, pending: int, nonce: nat, existed: bool): State
    requires id in s.running
  {
    var wanted := Allocation(nonce, s.running[id].request);
    if Compare(s.files, wanted, pending).Ok? then At(s, id, Authorized(pending, nonce, existed)) else Stopped(s, id)
  }

  function Send(s: State, id: nat, pending: int, nonce: nat, existed: bool, report: Report): State
    requires id in s.running
  {
    var request := s.running[id].request;
    if request.Write? && nonce < pending && !existed then Stopped(s, id)
    else
      Stopped(s, id).(broadcasts := s.broadcasts
        + [Broadcast(id, nonce, request, CalldataFor(request, report.owner, report.deadline), pending)])
  }

  function Next(s: State, e: Event): State {
    match e
    case Begin(request) =>
      s.(running := s.running[s.started := Process(request, Asked)], started := s.started + 1)
    case Stop(id) => Stopped(s, id)
    case Advance(id, report) =>
      if id !in s.running then s
      else
        match s.running[id].stage
        case Asked => ReadMint(s, id)
        case MintRead(exactReplay) =>
          if s.running[id].request.Write? then CheckMint(s, id, exactReplay, report) else s
        case MintChecked =>
          var request := s.running[id].request;
          if request.Write? && request.operation.Register? && request.operation.mintAuthorization.Some?
          then BindMint(s, id) else s
        case Ready => ReadWindow(s, id, report)
        case Windowed(pending, nonce) => InstallNonce(s, id, pending, nonce)
        case Installed(pending, nonce, existed) => CompareNonce(s, id, pending, nonce, existed)
        case Authorized(pending, nonce, existed) => Send(s, id, pending, nonce, existed, report)
  }

  function Run(s: State, events: seq<Event>): State {
    if events == [] then s else Next(Run(s, events[..|events| - 1]), events[|events| - 1])
  }

  /**
   Installing and comparing are two durable steps that other requests may separate; when none does, a request is
   authorized exactly when one undivided call would authorize it, and leaves the same files.
   */
  lemma UninterruptedAuthorization(s: State, id: nat, a: Report, b: Report)
    requires id in s.running && s.running[id].stage.Windowed?
    ensures var t, g := Next(Next(s, Advance(id, a)), Advance(id, b)), s.running[id].stage;
      var wanted := Allocation(g.nonce, s.running[id].request);
      if Grantable(s.files, wanted, g.pending) then
        && id in t.running && t.running[id].stage == Authorized(g.pending, g.nonce, g.nonce in s.files)
        && t.files == s.files[g.nonce := wanted]
      else id !in t.running && t.files == s.files
  {
    var one := Next(s, Advance(id, a));
    assert id in one.running && one.running[id].stage.Installed?;
  }

  // ---------------------------------------------------------------- the invariant

  predicate IsRegistration(request: Request) { request.Write? && request.operation.Register? }

  predicate MintBound(s: State, request: Request) {
    IsRegistration(request) ==> s.mint.Some? && Replays(s.mint.value, request.actionId, request.operation.nonce)
  }

  /** The nonce a request may use is its own for registry writes. */
  predicate NonceFits(request: Request, nonce: nat) { request.Write? ==> nonce == request.operation.nonce }

  /** A file the request did not create, unless the provider reported its nonce as pending. */
  predicate FoundRight(s: State, id: nat, pending: int, nonce: nat, existed: bool) {
    && nonce <= pending
    && (nonce == pending ==> nonce in s.files && nonce in s.installedBy && (existed <==> s.installedBy[nonce] != id))
    && (nonce < pending ==> existed && (nonce in s.installedBy ==> s.installedBy[nonce] != id))
  }

  predicate Untouched(s: State, id: nat) {
    forall n :: n in s.installedBy ==> s.installedBy[n] != id
  }

  predicate ProcessOk(s: State, id: nat, p: Process) {
    match p.stage
    case Asked => Untouched(s, id)
    case MintRead(_) => Untouched(s, id)
    case MintChecked => Untouched(s, id)
    case Ready => Untouched(s, id) && MintBound(s, p.request)
    case Windowed(pending, nonce) =>
      && Untouched(s, id) && MintBound(s, p.request) && nonce <= pending && NonceFits(p.request, nonce)
      && (p.request.Branding? ==> pending <= nonce + 1)
    case Installed(pending, nonce, existed) =>
      && FoundRight(s, id, pending, nonce, existed) && MintBound(s, p.request) && NonceFits(p.request, nonce)
      && (p.request.Branding? ==> pending <= nonce + 1)
    case Authorized(pending, nonce, existed) =>
      && FoundRight(s, id, pending, nonce, existed) && MintBound(s, p.request) && NonceFits(p.request, nonce)
      && nonce in s.files && s.files[nonce].request == p.request
      && (p.request.Branding? ==> pending <= nonce + 1)
  }

  /** What every broadcast ever made had behind it. */
  ghost predicate BroadcastOk(s: State, b: Broadcast) {
    && b.nonce in s.files && s.files[b.nonce].request == b.request
    && b.nonce in s.installedBy
    && MintBound(s, b.request) && NonceFits(b.request, b.nonce)
    && b.nonce <= b.pending
    && (b.nonce < b.pending ==> s.installedBy[b.nonce] != b.process)
    && (b.request.Branding? ==> b.pending <= b.nonce + 1)
    && (exists owner, deadline :: b.calldata == CalldataFor(b.request, owner, deadline))
  }

  ghost predicate Inv(s: State) {
    && s.installedBy.Keys == s.files.Keys
    && (forall n :: n in s.files ==> s.files[n].nonce == n)
    && (forall n :: n in s.installedBy ==> s.installedBy[n] < s.started)
    && (forall id :: id in s.running ==> id < s.started && ProcessOk(s, id, s.running[id]))
    && (forall b :: b in s.broadcasts ==> BroadcastOk(s, b))
  }

  /** Files, the mint allocation and the broadcasts are only ever added to. */
  ghost predicate Extends(s: State, t: State) {
    && (forall n :: n in s.files ==> n in t.files && t.files[n] == s.files[n])
    && (s.mint.Some? ==> t.mint == s.mint)
    && s.broadcasts <= t.broadcasts
  }

  // ---------------------------------------------------------------- every step keeps it

  /** `t` adds at most what the request `actor` installed. */
  ghost predicate Grows(s: State, t: State, actor: nat) {
    && (forall n :: n in s.files ==> n in t.files && t.files[n] == s.files[n])
    && (s.mint.Some? ==> t.mint == s.mint)
    && (forall n :: n in s.installedBy ==> n in t.installedBy && t.installedBy[n] == s.installedBy[n])
    && (forall n :: n in t.installedBy && n !in s.installedBy ==> t.installedBy[n] == actor)
  }

  lemma OtherProcessKeeps(s: State, t: State, actor: nat, id: nat, p: Process)
    requires Grows(s, t, actor) && id != actor && ProcessOk(s, id, p)
    ensures ProcessOk(t, id, p)
  {
  }

  lemma BroadcastKeeps(s: State, t: State, actor: nat, b: Broadcast)
    requires Grows(s, t, actor) && BroadcastOk(s, b)
    ensures BroadcastOk(t, b)
  {
  }

  /** What one action of `actor` may change. */
  ghost predicate StepOk(s: State, t: State, actor: nat) {
    && Grows(s, t, actor) && actor < t.started && s.started <= t.started
    && t.installedBy.Keys == t.files.Keys
    && (forall n :: n in t.files ==> t.files[n].nonce == n)
    && (forall id :: id in t.running && id != actor ==> id in s.running && t.running[id] == s.running[id])
    && (actor in t.running ==> ProcessOk(t, actor, t.running[actor]))
    && s.broadcasts <= t.broadcasts
    && (forall i :: |s.broadcasts| <= i < |t.broadcasts| ==> BroadcastOk(t, t.broadcasts[i]))
  }

  lemma StepKeepsInv(s: State, t: State, actor: nat)
    requires Inv(s) && StepOk(s, t, actor)
    ensures Inv(t) && Extends(s, t)
  {
    hide ProcessOk, BroadcastOk, Grows;
    GrowsExtends(s, t, actor);
    InstallersStarted(s, t, actor);
    forall id | id in t.running
      ensures id < t.started && ProcessOk(t, id, t.running[id])
    {
      if id != actor {
        OtherProcessKeeps(s, t, actor, id, s.running[id]);
      }
    }
    forall b | b in t.broadcasts
      ensures BroadcastOk(t, b)
    {
      var i :| 0 <= i < |t.broadcasts| && t.broadcasts[i] == b;
      if i < |s.broadcasts| {
        assert s.broadcasts[i] == b;
        BroadcastKeeps(s, t, actor, b);
      }
    }
  }

  lemma GrowsExtends(s: State, t: State, actor: nat)
    requires Grows(s, t, actor) && s.broadcasts <= t.broadcasts
    ensures Extends(s, t)
  {
  }

  lemma InstallersStarted(s: State, t: State, actor: nat)
    requires Grows(s, t, actor) && actor < t.started && s.started <= t.started
    requires forall n :: n in s.installedBy ==> s.installedBy[n] < s.started
    ensures forall n :: n in t.installedBy ==> t.installedBy[n] < t.started
  {
  }

  /** No request that has not yet started can have installed anything. */
  lemma BeginKeepsInv(s: State, request: Request)
    requires Inv(s)
    ensures Inv(Next(s, Begin(request))) && Extends(s, Next(s, Begin(request)))
  {
    var t := Next(s, Begin(request));
    assert ProcessOk(t, s.started, t.running[s.started]);
    StepKeepsInv(s, t, s.started);
  }

  /** The part of the invariant a step of one request relies on. */
  ghost predicate Poised(s: State, id: nat) {
    && id in s.running && id < s.started && ProcessOk(s, id, s.running[id])
    && s.installedBy.Keys == s.files.Keys
    && (forall n :: n in s.files ==> s.files[n].nonce == n)
  }

  lemma MintStepsOk(s: State, id: nat, report: Report)
    requires Poised(s, id)
    ensures s.running[id].stage.Asked? ==> StepOk(s, ReadMint(s, id), id)
    ensures s.running[id].stage.MintRead? && s.running[id].request.Write?
            ==> StepOk(s, CheckMint(s, id, s.running[id].stage.exactReplay, report), id)
  {
    hide BroadcastOk;
  }

  lemma BindOk(s: State, id: nat)
    requires Poised(s, id) && s.running[id].stage.MintChecked? && IsRegistration(s.running[id].request)
    requires s.running[id].request.operation.mintAuthorization.Some?
    ensures StepOk(s, BindMint(s, id), id)
  {
    hide BroadcastOk;
  }

  lemma WindowOk(s: State, id: nat, report: Report)
    requires Poised(s, id) && s.running[id].stage.Ready?
    ensures StepOk(s, ReadWindow(s, id, report), id)
  {
    hide BroadcastOk;
  }

  lemma InstallOk(s: State, id: nat)
    requires Poised(s, id) && s.running[id].stage.Windowed?
    ensures StepOk(s, InstallNonce(s, id, s.running[id].stage.pending, s.running[id].stage.nonce), id)
  {
    hide BroadcastOk;
  }

  lemma CompareOk(s: State, id: nat)
    requires Poised(s, id) && s.running[id].stage.Installed?
    ensures var p := s.running[id].stage; StepOk(s, CompareNonce(s, id, p.pending, p.nonce, p.existed), id)
  {
    hide BroadcastOk;
  }

  lemma SendOk(s: State, id: nat, report: Report)
    requires Poised(s, id) && s.running[id].stage.Authorized?
    ensures var p := s.running[id].stage; StepOk(s, Send(s, id, p.pending, p.nonce, p.existed, report), id)
  {
  }

  lemma AdvanceKeepsInv(s: State, id: nat, report: Report)
    requires Inv(s) && id in s.running
    ensures Inv(Next(s, Advance(id, report))) && Extends(s, Next(s, Advance(id, report)))
  {
    assert Poised(s, id);
    hide Inv, Extends, Poised, StepOk, ReadMint, CheckMint, BindMint, ReadWindow, InstallNonce, CompareNonce, Send;
    var t := Next(s, Advance(id, report));
    match s.running[id].stage {
      case Asked => MintStepsOk(s, id, report);
      case MintRead(_) => MintStepsOk(s, id, report);
      case MintChecked =>
        if IsRegistration(s.running[id].request) && s.running[id].request.operation.mintAuthorization.Some? {
          BindOk(s, id);
        }
      case Ready => WindowOk(s, id, report);
      case Windowed(_, _) => InstallOk(s, id);
      case Installed(_, _, _) => CompareOk(s, id);
      case Authorized(_, _, _) => SendOk(s, id, report);
    }
    if t != s {
      StepKeepsInv(s, t, id);
    } else {
      ExtendsItself(s);
    }
  }

  lemma ExtendsItself(s: State)
    ensures Extends(s, s)
  {
  }

  lemma NextKeepsInv(s: State, e: Event)
    requires Inv(s)
    ensures Inv(Next(s, e)) && Extends(s, Next(s, e))
  {
    hide Inv, Extends;
    match e
    case Begin(request) => BeginKeepsInv(s, request);
    case Stop(id) => StopKeepsInv(s, id);
    case Advance(id, report) =>
      if id in s.running {
        AdvanceKeepsInv(s, id, report);
      } else {
        StopKeepsInv(s, id);
        assert Stopped(s, id) == s;
      }
  }

  lemma StopKeepsInv(s: State, id: nat)
    requires Inv(s)
    ensures Inv(Stopped(s, id)) && Extends(s, Stopped(s, id))
  {
  }

  lemma {:induction false} RunKeepsInv(s: State, events: seq<Event>)
    requires Inv(s)
    ensures Inv(Run(s, events)) && Extends(s, Run(s, events))
  {
    if events != [] {
      var before := Run(s, events[..|events| - 1]);
      RunKeepsInv(s, events[..|events| - 1]);
      NextKeepsInv(before, events[|events| - 1]);
    }
  }

  // ---------------------------------------------------------------- what the runs promise

  /**
   Whatever requests ran, crashed and interleaved, and whatever the provider reported: two transactions with
   one nonce come from the same exact action. Their calldata can only differ in the signature of a wallet call,
   which covers the owner read from the chain and the deadline.
   */
  lemma OneActionPerNonce(events: seq<Event>, i: nat, j: nat)
    requires i < |Run(FRESH, events).broadcasts| && j < |Run(FRESH, events).broadcasts|
    requires Run(FRESH, events).broadcasts[i].nonce == Run(FRESH, events).broadcasts[j].nonce
    ensures var a, b := Run(FRESH, events).broadcasts[i], Run(FRESH, events).broadcasts[j];
      && a.request == b.request
      && (a.calldata == b.calldata || (a.calldata.WalletCall? && b.calldata.WalletCall?
                                       && a.calldata.agentId == b.calldata.agentId))
  {
    RunKeepsInv(FRESH, events);
    var s := Run(FRESH, events);
    assert BroadcastOk(s, s.broadcasts[i]) && BroadcastOk(s, s.broadcasts[j]);
  }

  /** A Branding or referral transaction is only ever sent as the pending one, or in place of the only pending one. */
  lemma BrandingIsNeverQueued(events: seq<Event>, i: nat)
    requires i < |Run(FRESH, events).broadcasts| && Run(FRESH, events).broadcasts[i].request.Branding?
    ensures var b := Run(FRESH, events).broadcasts[i]; b.nonce <= b.pending <= b.nonce + 1
  {
    RunKeepsInv(FRESH, events);
    var s := Run(FRESH, events);
    assert BroadcastOk(s, s.broadcasts[i]);
  }

  /** The calldata does what the request asks for, and nothing else. */
  predicate Carries(calldata: Calldata, request: Request) {
    if request.Branding? then
      calldata.RawCall? && calldata.destination == request.destination && calldata.data == request.data
    else
      var op := request.operation;
      && (op.Register? <==> calldata.RegisterCall?)
      && (op.SetAgentUri? <==> calldata.UriCall?) && (op.SetMetadata? <==> calldata.MetadataCall?)
      && (op.SetAgentWallet? <==> calldata.WalletCall?) && !calldata.RawCall?
      && (op.SetAgentUri? ==> calldata.agentId == op.agentId && calldata.agentURI == op.agentURI)
      && (op.SetMetadata? ==> calldata.agentId == op.agentId && calldata.key == op.key && calldata.value == op.value)
      && (op.SetAgentWallet? ==> calldata.agentId == op.agentId)
  }

  ghost predicate Began(events: seq<Event>, request: Request) {
    exists i :: 0 <= i < |events| && events[i] == Begin(request)
  }

  lemma {:induction false} NothingIsInvented(events: seq<Event>)
    ensures forall id :: id in Run(FRESH, events).running ==> Began(events, Run(FRESH, events).running[id].request)
    ensures forall b :: b in Run(FRESH, events).broadcasts ==>
              Began(events, b.request) && Carries(b.calldata, b.request)
  {
    if events != [] {
      hide Next, Carries;
      var n := |events| - 1;
      var s, t := Run(FRESH, events[..n]), Run(FRESH, events);
      NothingIsInvented(events[..n]);
      StepInvents(s, events[n]);
      assert forall request :: Began(events[..n], request) ==> Began(events, request);
      assert events[n].Begin? ==> Began(events, events[n].request);
    }
  }

  ghost predicate SameRequests(s: State, t: State) {
    forall id :: id in t.running ==> id in s.running && t.running[id].request == s.running[id].request
  }

  lemma MintSendsNothing(s: State, id: nat, report: Report)
    requires id in s.running
    ensures SameRequests(s, ReadMint(s, id)) && ReadMint(s, id).broadcasts == s.broadcasts
    ensures s.running[id].request.Write? && s.running[id].stage.MintRead? ==>
              var t := CheckMint(s, id, s.running[id].stage.exactReplay, report);
              SameRequests(s, t) && t.broadcasts == s.broadcasts
    ensures IsRegistration(s.running[id].request) && s.running[id].request.operation.mintAuthorization.Some? ==>
              SameRequests(s, BindMint(s, id)) && BindMint(s, id).broadcasts == s.broadcasts
  {
    hide AssertTransactionNonceWindow;
  }

  lemma NonceSendsNothing(s: State, id: nat, report: Report)
    requires id in s.running
    ensures var g := s.running[id].stage;
      && SameRequests(s, ReadWindow(s, id, report)) && ReadWindow(s, id, report).broadcasts == s.broadcasts
      && (g.Windowed? ==>
            var t := InstallNonce(s, id, g.pending, g.nonce); SameRequests(s, t) && t.broadcasts == s.broadcasts)
      && (g.Installed? ==>
            var t := CompareNonce(s, id, g.pending, g.nonce, g.existed);
            SameRequests(s, t) && t.broadcasts == s.broadcasts)
  {
    hide AssertTransactionNonceWindow, BrandingWindow, Compare;
  }

  lemma SendCarries(s: State, id: nat, report: Report)
    requires id in s.running && s.running[id].stage.Authorized?
    ensures var g := s.running[id].stage; var t := Send(s, id, g.pending, g.nonce, g.existed, report);
      && SameRequests(s, t)
      && forall b :: b in t.broadcasts ==>
           b in s.broadcasts || (Carries(b.calldata, b.request) && b.request == s.running[id].request)
  {
  }

  lemma StepInvents(s: State, e: Event)
    ensures var t := Next(s, e);
      && (forall id :: id in t.running ==>
            (id in s.running && t.running[id].request == s.running[id].request) || e == Begin(t.running[id].request))
      && (forall b :: b in t.broadcasts ==>
            b in s.broadcasts
            || (Carries(b.calldata, b.request) && exists id :: id in s.running && s.running[id].request == b.request))
  {
    hide ReadMint, CheckMint, BindMint, ReadWindow, InstallNonce, CompareNonce, Send, Carries;
    if e.Advance? && e.id in s.running {
      MintSendsNothing(s, e.id, e.report);
      NonceSendsNothing(s, e.id, e.report);
      if s.running[e.id].stage.Authorized? {
        SendCarries(s, e.id, e.report);
      }
    }
  }

  /** Every transaction ever sent was asked for by a request of the run, and carries exactly what that one asks. */
  lemma BroadcastsWereAskedFor(events: seq<Event>, i: nat)
    requires i < |Run(FRESH, events).broadcasts|
    ensures var b := Run(FRESH, events).broadcasts[i]; Began(events, b.request) && Carries(b.calldata, b.request)
  {
    NothingIsInvented(events);
    assert Run(FRESH, events).broadcasts[i] in Run(FRESH, events).broadcasts;
  }

  /** Registration happens under one action id and one nonce, forever. */
  lemma OneRegistration(events: seq<Event>, i: nat, j: nat)
    requires i < |Run(FRESH, events).broadcasts| && j < |Run(FRESH, events).broadcasts|
    requires IsRegistration(Run(FRESH, events).broadcasts[i].request)
    requires IsRegistration(Run(FRESH, events).broadcasts[j].request)
    ensures Run(FRESH, events).broadcasts[i].nonce == Run(FRESH, events).broadcasts[j].nonce
    ensures Run(FRESH, events).broadcasts[i].request == Run(FRESH, events).broadcasts[j].request
  {
    RunKeepsInv(FRESH, events);
    var s := Run(FRESH, events);
    assert BroadcastOk(s, s.broadcasts[i]) && BroadcastOk(s, s.broadcasts[j]);
  }

  /**
   A broadcast below the pending nonce replaces a transaction only under an allocation for the identical
   action that some other, earlier request had left on disk.
   */
  lemma ReplacementNeedsEarlierAllocation(events: seq<Event>, i: nat)
    requires i < |Run(FRESH, events).broadcasts|
    requires Run(FRESH, events).broadcasts[i].nonce < Run(FRESH, events).broadcasts[i].pending
    ensures var s := Run(FRESH, events); var b := s.broadcasts[i];
      && b.nonce in s.files && s.files[b.nonce] == Allocation(b.nonce, b.request)
      && b.nonce in s.installedBy && s.installedBy[b.nonce] != b.process
  {
    RunKeepsInv(FRESH, events);
    var s := Run(FRESH, events);
    assert BroadcastOk(s, s.broadcasts[i]);
  }

  /** An allocation, once on disk, rules its nonce in every continuation of the run. */
  lemma AllocationRulesForever(events: seq<Event>, more: seq<Event>, i: nat)
    requires |Run(FRESH, events).broadcasts| <= i < |Run(Run(FRESH, events), more).broadcasts|
    requires Run(Run(FRESH, events), more).broadcasts[i].nonce in Run(FRESH, events).files
    ensures var b := Run(Run(FRESH, events), more).broadcasts[i];
      b.request == Run(FRESH, events).files[b.nonce].request
  {
    RunKeepsInv(FRESH, events);
    RunKeepsInv(Run(FRESH, events), more);
    var t := Run(Run(FRESH, events), more);
    assert BroadcastOk(t, t.broadcasts[i]);
  }

  // ---------------------------------------------------------------- a registration with a renewed proof

  function Step(s: State, id: nat, report: Report): State { Next(s, Advance(id, report)) }

  /** Complete discovery covers the pending nonce, and it is the one that the registration asks for. */
  predicate Covered(nonce: nat, report: Report) {
    report.pending == report.covered && AssertTransactionNonceWindow(nonce, report.pending, report.covered, false).Ok?
  }

  /**
   Exactly which registrations pass the mint check, when nothing comes between its steps: the first one whose nonce
   is covered, and any replay of the recorded action and nonce, whatever proof it carries.
   */
  lemma MintCheckExactly(s: State, id: nat, a: Report, b: Report, c: Report)
    requires id in s.running && s.running[id].stage.Asked? && IsRegistration(s.running[id].request)
    ensures var t, request := Step(Step(Step(s, id, a), id, b), id, c), s.running[id].request;
      && (id in t.running <==>
            && request.operation.mintAuthorization.Some? && b.discoveryAllows
            && if s.mint.Some? then Replays(s.mint.value, request.actionId, request.operation.nonce)
               else Covered(request.operation.nonce, b))
      && (id in t.running ==> t.running[id] == Process(request, Ready) && MintBound(t, request))
      && t.files == s.files && t.broadcasts == s.broadcasts && (s.mint.Some? ==> t.mint == s.mint)
  {
    hide Covered, AssertTransactionNonceWindow;
    MintReadExactly(s, id, a, b);
    var u := Step(Step(s, id, a), id, b);
    if id in u.running {
      assert Step(u, id, c) == BindMint(u, id);
    }
  }

  lemma MintReadExactly(s: State, id: nat, a: Report, b: Report)
    requires id in s.running && s.running[id].stage.Asked? && IsRegistration(s.running[id].request)
    ensures var u, request := Step(Step(s, id, a), id, b), s.running[id].request;
      && (id in u.running <==>
            && request.operation.mintAuthorization.Some? && b.discoveryAllows
            && if s.mint.Some? then Replays(s.mint.value, request.actionId, request.operation.nonce)
               else Covered(request.operation.nonce, b))
      && (id in u.running ==> u.running[id] == Process(request, MintChecked))
      && u.files == s.files && u.broadcasts == s.broadcasts && u.mint == s.mint
  {
    hide AssertTransactionNonceWindow;
    var t := Step(s, id, a);
    assert t == ReadMint(s, id);
    if id in t.running {
      assert Step(t, id, b) == CheckMint(t, id, t.running[id].stage.exactReplay, b);
    }
  }

  /**
   Exactly which registry writes are then sent, when nothing comes between these steps: those whose nonce is in the
   window, and either free and pending or allocated to the identical request, proof included.
   */
  lemma WriteIsSentExactly(s: State, id: nat, a: Report, b: Report, c: Report, d: Report)
    requires id in s.running && s.running[id].stage.Ready? && s.running[id].request.Write?
    ensures var t, request := Step(Step(Step(Step(s, id, a), id, b), id, c), id, d), s.running[id].request;
      var nonce := request.operation.nonce;
      t.broadcasts ==
        if && AssertTransactionNonceWindow(nonce, a.pending, a.latest, true).Ok? && IsSafeInteger(nonce)
           && Grantable(s.files, Allocation(nonce, request), a.pending)
        then s.broadcasts + [Broadcast(id, nonce, request, CalldataFor(request, d.owner, d.deadline), a.pending)]
        else s.broadcasts
  {
    hide Grantable, AssertTransactionNonceWindow, CalldataFor, InstallNonce, CompareNonce;
    var t := Step(s, id, a);
    assert t == ReadWindow(s, id, a);
    if id in t.running {
      var nonce := s.running[id].request.operation.nonce;
      assert t.running[id] == Process(s.running[id].request, Windowed(a.pending, nonce));
      UninterruptedAuthorization(t, id, b, c);
      StepsSendNothing(t, id, b, c);
      var u := Step(Step(t, id, b), id, c);
      if id in u.running {
        GrantedIsSent(s.files, Allocation(nonce, s.running[id].request), a.pending);
      }
    }
  }

  /** The same for Branding and referral transactions, whose nonce is the confirmed count. */
  lemma BrandingIsSentExactly(s: State, id: nat, a: Report, b: Report, c: Report, d: Report)
    requires id in s.running && s.running[id].stage.Ready? && s.running[id].request.Branding?
    ensures var t, request := Step(Step(Step(Step(s, id, a), id, b), id, c), id, d), s.running[id].request;
      t.broadcasts ==
        if && 0 <= a.latest <= a.pending <= a.latest + 1 && a.pending <= MAX_SAFE_INTEGER
           && Grantable(s.files, Allocation(a.latest, request), a.pending)
        then s.broadcasts
             + [Broadcast(id, a.latest, request, RawCall(request.destination, request.data), a.pending)]
        else s.broadcasts
  {
    hide Grantable, InstallNonce, CompareNonce;
    var t := Step(s, id, a);
    assert t == ReadWindow(s, id, a);
    if id in t.running {
      assert t.running[id] == Process(s.running[id].request, Windowed(a.pending, a.latest));
      UninterruptedAuthorization(t, id, b, c);
      StepsSendNothing(t, id, b, c);
    }
  }

  lemma StepsSendNothing(s: State, id: nat, b: Report, c: Report)
    requires id in s.running && s.running[id].stage.Windowed?
    ensures var u := Step(Step(s, id, b), id, c);
      u.broadcasts == s.broadcasts && (id in u.running ==> u.running[id].request == s.running[id].request)
  {
    hide Compare;
    var t := Step(s, id, b);
    assert id in t.running && t.running[id].stage.Installed?;
  }

  lemma GrantedIsSent(files: map<nat, Allocation>, wanted: Allocation, pending: int)
    requires Grantable(files, wanted, pending)
    ensures wanted.nonce < pending ==> wanted.nonce in files
  {
  }

  lemma {:induction false} RunAppend(s: State, a: seq<Event>, b: seq<Event>)
    ensures Run(s, a + b) == Run(Run(s, a), b)
  {
    hide Next;
    if b == [] {
      assert a + b == a;
    } else {
      var n := |b| - 1;
      RunAppend(s, a, b[..n]);
      assert (a + b)[..|a + b| - 1] == a + b[..n];
    }
  }

  function Steps(id: nat, report: Report, n: nat): seq<Event> { seq(n, _ => Advance(id, report)) }

  lemma RunSteps(s: State, id: nat, r: Report)
    ensures Run(s, Steps(id, r, 3)) == Step(Step(Step(s, id, r), id, r), id, r)
    ensures Run(s, Steps(id, r, 4)) == Step(Step(Step(Step(s, id, r), id, r), id, r), id, r)
  {
    hide Next;
    assert Steps(id, r, 0) == [] && Steps(id, r, 4)[..3] == Steps(id, r, 3);
    assert Steps(id, r, 3)[..2] == Steps(id, r, 2) && Steps(id, r, 2)[..1] == Steps(id, r, 1);
    assert Steps(id, r, 1)[..0] == [];
    assert Run(s, []) == s;
    assert Run(s, Steps(id, r, 1)) == Step(s, id, r);
    assert Run(s, Steps(id, r, 2)) == Step(Step(s, id, r), id, r);
  }

  lemma RunBegin(s: State, request: Request)
    ensures Run(s, [Begin(request)]) == Next(s, Begin(request))
  {
    assert [Begin(request)][..0] == [];
    assert Run(s, []) == s;
  }

  function Registration(proof: string): Request {
    Write("register", Register(7, Some(MintAuthorization(proof))))
  }

  /** The wallet has sent seven transactions; discovery is complete. */
  const ANSWER := Report(7, 7, 7, true, "owner", 0)

  const BOTH_REGISTRATIONS: seq<Event> :=
    ([Begin(Registration("old"))] + Steps(0, ANSWER, 3) + Steps(0, ANSWER, 4))
    + ([Begin(Registration("new"))] + Steps(1, ANSWER, 3))

  lemma RegistrationChecked(s: State, proof: string)
    requires s.mint.Some? ==> Replays(s.mint.value, "register", 7)
    ensures var events := [Begin(Registration(proof))] + Steps(s.started, ANSWER, 3); var t := Run(s, events);
      && s.started in t.running && t.running[s.started] == Process(Registration(proof), Ready)
      && t.mint.Some? && Replays(t.mint.value, "register", 7)
      && t.files == s.files && t.broadcasts == s.broadcasts && t.started == s.started + 1
  {
    var t := Next(s, Begin(Registration(proof)));
    RunAppend(s, [Begin(Registration(proof))], Steps(s.started, ANSWER, 3));
    RunBegin(s, Registration(proof));
    RunSteps(t, s.started, ANSWER);
    MintCheckExactly(t, s.started, ANSWER, ANSWER, ANSWER);
    hide Next, Run, Steps;
    StartedStays(t, s.started);
    StartedStays(Step(t, s.started, ANSWER), s.started);
    StartedStays(Step(Step(t, s.started, ANSWER), s.started, ANSWER), s.started);
  }

  lemma StartedStays(s: State, id: nat)
    ensures Step(s, id, ANSWER).started == s.started
  {
  }

  /** What is sent lies allocated. */
  lemma SentIsAllocated(events: seq<Event>)
    requires |Run(FRESH, events).broadcasts| == 1
    ensures var s := Run(FRESH, events); var b := s.broadcasts[0];
      b.nonce in s.files && s.files[b.nonce] == Allocation(b.nonce, b.request) && MintBound(s, b.request)
  {
    RunKeepsInv(FRESH, events);
    var s := Run(FRESH, events);
    assert BroadcastOk(s, s.broadcasts[0]);
  }

  lemma RegistrationSent(events: seq<Event>, id: nat, proof: string)
    requires var s := Run(FRESH, events);
      && id in s.running && s.running[id] == Process(Registration(proof), Ready)
      && 7 !in s.files && s.broadcasts == []
    ensures var t := Run(FRESH, events + Steps(id, ANSWER, 4));
      && |t.broadcasts| == 1 && t.broadcasts[0].request == Registration(proof) && t.broadcasts[0].nonce == 7
      && t.started == Run(FRESH, events).started
  {
    var s := Run(FRESH, events);
    RunAppend(FRESH, events, Steps(id, ANSWER, 4));
    RunSteps(s, id, ANSWER);
    WriteIsSentExactly(s, id, ANSWER, ANSWER, ANSWER, ANSWER);
    hide Next, Run, Steps;
    StartedStays(s, id);
    StartedStays(Step(s, id, ANSWER), id);
    StartedStays(Step(Step(s, id, ANSWER), id, ANSWER), id);
    StartedStays(Step(Step(Step(s, id, ANSWER), id, ANSWER), id, ANSWER), id);
  }

  /**
   A run in which a registration is sent, and then passes the mint check again with a newer proof of discovery. It
   stands before the nonce file, which holds the proof that it was first sent with, and no report lets it through.
   */
  lemma RenewedProofIsStopped(a: Report, b: Report, c: Report, d: Report)
    ensures var s := Run(FRESH, BOTH_REGISTRATIONS);
      && |s.broadcasts| == 1 && s.broadcasts[0].request == Registration("old")
      && 1 in s.running && s.running[1] == Process(Registration("new"), Ready)
      && Step(Step(Step(Step(s, 1, a), 1, b), 1, c), 1, d).broadcasts == s.broadcasts
  {
    hide Next, Steps, Step, Grantable;
    var first := [Begin(Registration("old"))] + Steps(0, ANSWER, 3);
    RegistrationChecked(FRESH, "old");
    var sent := first + Steps(0, ANSWER, 4);
    RegistrationSent(first, 0, "old");
    SentIsAllocated(sent);
    var t := Run(FRESH, sent);
    RegistrationChecked(t, "new");
    RunAppend(FRESH, sent, [Begin(Registration("new"))] + Steps(1, ANSWER, 3));
    var s := Run(FRESH, BOTH_REGISTRATIONS);
    OtherRequest(s.files, Registration("old"), Registration("new"), a.pending);
    WriteIsSentExactly(s, 1, a, b, c, d);
  }

  lemma OtherRequest(files: map<nat, Allocation>, held: Request, wanted: Request, pending: int)
    requires 7 in files && files[7] == Allocation(7, held)
    requires held == Registration("old") && wanted == Registration("new")
    ensures !Grantable(files, Allocation(7, wanted), pending)
  {
    assert "old"[0] != "new"[0];
  }

  /**
   In any run: a registration that passes as a replay of the mint allocation, but carries a newer proof than the one
   its nonce was allocated with, is never broadcast, however the requests interleave from then on.
   */
  lemma RefreshedProofIsNeverSent(events: seq<Event>, more: seq<Event>, i: nat, renewed: Request)
    requires IsRegistration(renewed) && renewed.operation.nonce in Run(FRESH, events).files
    requires Run(FRESH, events).files[renewed.operation.nonce].request != renewed
    requires |Run(FRESH, events).broadcasts| <= i < |Run(Run(FRESH, events), more).broadcasts|
    ensures Run(Run(FRESH, events), more).broadcasts[i].request != renewed
  {
    RunKeepsInv(FRESH, events);
    RunKeepsInv(Run(FRESH, events), more);
    var t := Run(Run(FRESH, events), more);
    assert BroadcastOk(t, t.broadcasts[i]);
  }
}
