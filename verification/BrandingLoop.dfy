/**
 The completion loop of a Branding: it rebuilds the pending phases from a fresh snapshot, sends the first and
 demands that the next snapshot shows its effect. The chain may change arbitrarily between two snapshots.
 */
module BrandingLoop {
  import opened Wrappers
  import opened SignerJournal

  datatype CompleteBrandingOperation = CompleteBrandingOperation(
    minter: string,
    controllerAgentId: string,
    referrer: string,
    treasuryBalance: nat,
    initialDeclaredPrice: nat,
    nonce: nat,
    acolyteName: string)

  /** What the contracts answer at one block; `consistent` covers subject, lifecycle, controller and reorg checks. */
  datatype View = View(
    minted: bool,
    owner: string,
    controllerAgentId: string,
    referrer: string,
    consentNonce: nat,
    firstWeekUpkeep: nat,
    uwuBalance: nat,
    allowance: nat,
    acolyteNameTrait: Option<string>,
    consistent: bool)

  datatype Snapshot = Snapshot(view: View, nameTrait: Option<string>)

  /** One turn of the loop: a view, whether ether falls short, and what the consent check and the send answer. */
  datatype Turn = Turn(view: View, ethShortfall: bool, consentHolds: bool, sendSucceeds: bool)

  datatype Outcome =
    | Complete(snapshot: Snapshot)
    | FundingRequired(pendingOperations: seq<Phase>)
    | Failed(code: string)

  function ExpectedFirstWeekUpkeep(price: nat): nat { (price * 10 + 9_999) / 10_000 }

  function ReadSnapshot(op: CompleteBrandingOperation, v: View): (r: Result<Snapshot, string>)
    ensures r.Err? ==> r.error != "branding_incomplete"
  {
    if !v.consistent then Err("branding_state")
    else if !v.minted then
      if v.uwuBalance != op.treasuryBalance then Err("branding_treasury_changed")
      else if v.firstWeekUpkeep != ExpectedFirstWeekUpkeep(op.initialDeclaredPrice) then Err("branding_upkeep")
      else Ok(Snapshot(v, None))
    else if v.owner != op.minter || v.controllerAgentId != op.controllerAgentId || v.referrer != op.referrer
    then Err("branding_conflict")
    else if v.consentNonce != op.nonce + 1 then Err("branding_nonce")
    else Ok(Snapshot(v, v.acolyteNameTrait))
  }

  function BrandingPhases(op: CompleteBrandingOperation, s: Snapshot): seq<Phase> {
    if s.view.minted then
      if s.nameTrait == Some(op.acolyteName) then [] else [NameTrait]
    else
      (if s.view.allowance < s.view.firstWeekUpkeep then [Approve] else []) + [Mint, NameTrait, BrandAvatar]
  }

  predicate Shortfall(op: CompleteBrandingOperation, s: Snapshot, t: Turn) {
    var phases := BrandingPhases(op, s);
    phases != [] && (t.ethShortfall || (Mint in phases && s.view.firstWeekUpkeep > s.view.uwuBalance))
  }

  predicate PhaseAdvanced(op: CompleteBrandingOperation, sent: Phase, s: Snapshot) {
    match sent
    case Approve => s.view.allowance >= s.view.firstWeekUpkeep
    case Mint => s.view.minted && s.view.consentNonce == op.nonce + 1
    case NameTrait => s.nameTrait == Some(op.acolyteName)
    case BrandAvatar => false
    case ReferralBounty => false
  }

  // ---------------------------------------------------------------- what a snapshot and its phases say

  /** A tenth of a percent of the price, rounded up. */
  predicate IsUpkeep(price: nat, upkeep: nat) {
    upkeep * 10_000 >= price * 10 && (upkeep > 0 ==> (upkeep - 1) * 10_000 < price * 10)
  }

  /** The view is of this very workflow: an exact quote before the mint, the exact parties and consent after it. */
  predicate Consistent(op: CompleteBrandingOperation, v: View) {
    && v.consistent
    && if v.minted then
         && v.owner == op.minter && v.controllerAgentId == op.controllerAgentId && v.referrer == op.referrer
         && v.consentNonce == op.nonce + 1
       else v.uwuBalance == op.treasuryBalance && IsUpkeep(op.initialDeclaredPrice, v.firstWeekUpkeep)
  }

  /** Whoever is minted needs the name, whoever is not needs to pay; the name only counts once minted. */
  lemma SnapshotsAndPhases(op: CompleteBrandingOperation, v: View)
    ensures ReadSnapshot(op, v).Ok? <==> Consistent(op, v)
    ensures ReadSnapshot(op, v).Ok? ==>
              var s := ReadSnapshot(op, v).value; var phases := BrandingPhases(op, s);
              && s.view == v && s.nameTrait == (if v.minted then v.acolyteNameTrait else None)
              && (phases == [] <==> Branded(op, s))
              && (Approve in phases <==> !v.minted && v.allowance < v.firstWeekUpkeep)
              && (Mint in phases <==> !v.minted)
              && (NameTrait in phases <==> !v.minted || v.acolyteNameTrait != Some(op.acolyteName))
              && (Approve in phases ==> phases[0] == Approve)
              && (Mint in phases && Approve !in phases ==> phases[0] == Mint)
  {
    if !v.minted && v.consistent {
      var s := Snapshot(v, None);
      var rest := [Mint, NameTrait, BrandAvatar];
      assert BrandingPhases(op, s) == (if v.allowance < v.firstWeekUpkeep then [Approve] + rest else [] + rest);
      assert rest[0] == Mint && rest[1] == NameTrait && [] + rest == rest;
      assert v.allowance < v.firstWeekUpkeep ==> ([Approve] + rest)[1] == Mint && ([Approve] + rest)[2] == NameTrait;
    }
  }

  /** What a send does to the chain when nothing else happens. */
  predicate Reacts(op: CompleteBrandingOperation, v: View, w: View) {
    if v.minted then w.minted && w.acolyteNameTrait == Some(op.acolyteName)
    else if v.allowance < v.firstWeekUpkeep then !w.minted && w.allowance >= w.firstWeekUpkeep
    else w.minted
  }

  /** A chain that shows this workflow, has the funds, accepts every send and reacts to it. */
  ghost predicate Cooperates(op: CompleteBrandingOperation, chain: nat -> Turn) {
    forall k: nat ::
      && Consistent(op, chain(k).view) && chain(k).consentHolds && chain(k).sendSucceeds && !chain(k).ethShortfall
      && (!chain(k).view.minted ==> chain(k).view.firstWeekUpkeep <= op.treasuryBalance)
      && Reacts(op, chain(k).view, chain(k + 1).view)
  }

  lemma CooperativeIsHonest(op: CompleteBrandingOperation, chain: nat -> Turn)
    requires Cooperates(op, chain)
    ensures Honest(op, chain)
  {
    forall k: nat
      ensures HonestAt(op, chain, k)
    {
      assert Consistent(op, chain(k + 1).view) && Reacts(op, chain(k).view, chain(k + 1).view);
      SnapshotsAndPhases(op, chain(k).view);
      SnapshotsAndPhases(op, chain(k + 1).view);
    }
  }

  /** Nothing is sent without the ether for it, and nothing is approved or minted without the exact quoted funds. */
  lemma {:induction false} SendsAreFunded(op: CompleteBrandingOperation, chain: nat -> Turn, sent: seq<Phase>, k: nat)
    requires Trace(op, chain, sent) && k < |sent|
    ensures var t := chain(k);
      && Consistent(op, t.view) && !t.ethShortfall
      && (sent[k].Approve? ==> !t.view.minted && t.view.allowance < t.view.firstWeekUpkeep <= op.treasuryBalance)
      && (sent[k].Mint? ==> !t.view.minted && t.view.firstWeekUpkeep <= t.view.allowance
                            && t.view.firstWeekUpkeep <= op.treasuryBalance)
      && (sent[k].NameTrait? ==> t.view.minted && t.view.acolyteNameTrait != Some(op.acolyteName))
  {
    hide ReadSnapshot, BrandingPhases, PhaseAdvanced, IsUpkeep;
    var n := |sent| - 1;
    if k < n {
      SendsAreFunded(op, chain, sent[..n], k);
    } else {
      SnapshotsAndPhases(op, chain(n).view);
      AvatarIsPendingButNeverNext(op, ReadSnapshot(op, chain(n).view).value);
    }
  }

  /** How many sends a first pending phase can still lead to. */
  function Remaining(phases: seq<Phase>): nat {
    if phases == [] then 0
    else
      match phases[0]
      case Approve => 3
      case Mint => 2
      case _ => 1
  }

  /** The avatar phase is reported while unminted, but it can never become the first phase. */
  lemma AvatarIsPendingButNeverNext(op: CompleteBrandingOperation, s: Snapshot)
    ensures BrandAvatar in BrandingPhases(op, s) <==> !s.view.minted
    ensures BrandingPhases(op, s) != [] ==> BrandingPhases(op, s)[0] in {Approve, Mint, NameTrait}
  {
    if !s.view.minted {
      var phases := BrandingPhases(op, s);
      assert phases[|phases| - 1] == BrandAvatar;
    }
  }

  /** Whatever the chain did meanwhile, an effective send leaves strictly less to do. */
  lemma EffectIsProgress(op: CompleteBrandingOperation, before: Snapshot, v: View)
    requires BrandingPhases(op, before) != [] && ReadSnapshot(op, v).Ok?
    requires PhaseAdvanced(op, BrandingPhases(op, before)[0], ReadSnapshot(op, v).value)
    ensures Remaining(BrandingPhases(op, ReadSnapshot(op, v).value)) < Remaining(BrandingPhases(op, before))
  {
    AvatarIsPendingButNeverNext(op, before);
  }

  ghost predicate HonestAt(op: CompleteBrandingOperation, chain: nat -> Turn, k: nat) {
    var s := ReadSnapshot(op, chain(k).view);
    && s.Ok? && chain(k).consentHolds && chain(k).sendSucceeds && !Shortfall(op, s.value, chain(k))
    && (BrandingPhases(op, s.value) != [] ==>
          && ReadSnapshot(op, chain(k + 1).view).Ok?
          && PhaseAdvanced(op, BrandingPhases(op, s.value)[0], ReadSnapshot(op, chain(k + 1).view).value))
  }

  /** The chain answers every read, never falls short, and shows the effect of every send. */
  ghost predicate Honest(op: CompleteBrandingOperation, chain: nat -> Turn) {
    forall k: nat :: HonestAt(op, chain, k)
  }

  /** The phase is the first pending one of the k-th snapshot, and that snapshot is funded. */
  ghost predicate Justified(op: CompleteBrandingOperation, chain: nat -> Turn, phase: Phase, k: nat) {
    && ReadSnapshot(op, chain(k).view).Ok?
    && var s := ReadSnapshot(op, chain(k).view).value;
       && BrandingPhases(op, s) != [] && BrandingPhases(op, s)[0] == phase
       && !Shortfall(op, s, chain(k))
  }

  /** The k-th snapshot shows the effect of the phase. */
  ghost predicate Effective(op: CompleteBrandingOperation, chain: nat -> Turn, phase: Phase, k: nat) {
    ReadSnapshot(op, chain(k).view).Ok? && PhaseAdvanced(op, phase, ReadSnapshot(op, chain(k).view).value)
  }

  /** What was sent, each phase justified by its own snapshot and each but the last seen to be effective. */
  ghost predicate Trace(op: CompleteBrandingOperation, chain: nat -> Turn, sent: seq<Phase>) {
    sent == [] ||
    var n := |sent| - 1;
    && Trace(op, chain, sent[..n]) && Justified(op, chain, sent[n], n)
    && (n > 0 ==> Effective(op, chain, sent[n - 1], n))
  }

  /** At most one approval, one mint and one name write, in this order, whatever the chain does. */
  lemma {:induction false} TraceIsShort(op: CompleteBrandingOperation, chain: nat -> Turn, sent: seq<Phase>)
    requires Trace(op, chain, sent)
    ensures forall i :: 0 <= i < |sent| ==> Remaining([sent[i]]) <= 3 - i
    ensures forall i, j :: 0 <= i < j < |sent| ==> Remaining([sent[i]]) > Remaining([sent[j]])
    ensures forall i :: 0 <= i < |sent| ==> sent[i] in {Approve, Mint, NameTrait}
    ensures |sent| <= 3
  {
    if sent != [] {
      hide ReadSnapshot, BrandingPhases, PhaseAdvanced, Shortfall;
      var n := |sent| - 1;
      TraceIsShort(op, chain, sent[..n]);
      var s := ReadSnapshot(op, chain(n).view).value;
      AvatarIsPendingButNeverNext(op, s);
      if n > 0 {
        assert sent[n - 1] == sent[..n][n - 1];
        assert Justified(op, chain, sent[n - 1], n - 1);
        EffectIsProgress(op, ReadSnapshot(op, chain(n - 1).view).value, chain(n).view);
      }
      forall i | 0 <= i < n
        ensures Remaining([sent[i]]) > Remaining([sent[n]])
      {
        assert sent[..n][i] == sent[i];
      }
    }
  }

  lemma AtMostThreeAreSent(op: CompleteBrandingOperation, chain: nat -> Turn, sent: seq<Phase>)
    requires Trace(op, chain, sent)
    ensures |sent| <= 3
  {
    TraceIsShort(op, chain, sent);
  }

  lemma TraceStart(op: CompleteBrandingOperation, chain: nat -> Turn)
    ensures Trace(op, chain, [])
  {
  }

  lemma TraceGrows(op: CompleteBrandingOperation, chain: nat -> Turn, sent: seq<Phase>, next: Phase, s: Snapshot)
    requires Trace(op, chain, sent) && ReadSnapshot(op, chain(|sent|).view) == Ok(s)
    requires BrandingPhases(op, s) != [] && BrandingPhases(op, s)[0] == next && !Shortfall(op, s, chain(|sent|))
    requires sent != [] ==> PhaseAdvanced(op, sent[|sent| - 1], s)
    ensures Trace(op, chain, sent + [next])
  {
    hide ReadSnapshot, BrandingPhases, PhaseAdvanced, Shortfall;
    assert (sent + [next])[..|sent|] == sent;
  }

  /** With nothing left to do the final verification cannot fail. */
  lemma NothingLeftIsComplete(op: CompleteBrandingOperation, v: View)
    requires ReadSnapshot(op, v).Ok? && BrandingPhases(op, ReadSnapshot(op, v).value) == []
    ensures Branded(op, ReadSnapshot(op, v).value)
  {
  }

  predicate Branded(op: CompleteBrandingOperation, s: Snapshot) {
    && s.view.minted && s.nameTrait == Some(op.acolyteName) && s.view.consentNonce == op.nonce + 1
    && s.view.owner == op.minter && s.view.controllerAgentId == op.controllerAgentId
    && s.view.referrer == op.referrer
  }

  lemma HonestMeans(op: CompleteBrandingOperation, chain: nat -> Turn, k: nat)
    requires Honest(op, chain)
    ensures HonestAt(op, chain, k)
  {
  }

  /** `chain(k)` is the k-th snapshot the run takes, with the answers that follow it. */
  method CompleteBranding(op: CompleteBrandingOperation, chain: nat -> Turn) returns (r: Outcome, sent: seq<Phase>)
    ensures Trace(op, chain, sent) && |sent| <= 3
    ensures r.Complete? ==> ReadSnapshot(op, chain(|sent|).view) == Ok(r.snapshot) && Branded(op, r.snapshot)
    ensures r.FundingRequired? ==>
              && ReadSnapshot(op, chain(|sent|).view).Ok?
              && Shortfall(op, ReadSnapshot(op, chain(|sent|).view).value, chain(|sent|))
    ensures r != Failed("branding_incomplete")
    ensures r.FundingRequired? ==>
              r.pendingOperations == BrandingPhases(op, ReadSnapshot(op, chain(|sent|).view).value)
    ensures Honest(op, chain) ==> r.Complete?
    ensures Cooperates(op, chain) ==> r.Complete?
  {
    if Cooperates(op, chain) {
      CooperativeIsHonest(op, chain);
    }
    hide Justified, Effective, Consistent, Reacts, ReadSnapshot, BrandingPhases, PhaseAdvanced, Shortfall,
         Honest, Branded, Remaining, Trace, Cooperates;
    TraceStart(op, chain);
    sent := [];
    if Honest(op, chain) {
      HonestMeans(op, chain, 0);
    }
    var first := ReadSnapshot(op, chain(0).view);
    if first.Err? {
      return Failed(first.error), sent;
    }
    var snapshot := first.value;
    if !snapshot.view.minted && !chain(0).consentHolds {
      return Failed("branding_consent"), sent;
    }
    var phases := BrandingPhases(op, snapshot);
    if Shortfall(op, snapshot, chain(0)) {
      return FundingRequired(phases), sent;
    }
    while phases != []
      invariant Trace(op, chain, sent)
      invariant ReadSnapshot(op, chain(|sent|).view) == Ok(snapshot) && phases == BrandingPhases(op, snapshot)
      invariant !Shortfall(op, snapshot, chain(|sent|))
      invariant sent != [] ==> PhaseAdvanced(op, sent[|sent| - 1], snapshot)
      decreases Remaining(phases)
    {
      var turn := chain(|sent|);
      var next := phases[0];
      if Honest(op, chain) {
        HonestMeans(op, chain, |sent|);
        HonestMeans(op, chain, |sent| + 1);
      }
      ghost var before, done := snapshot, sent;
      sent := sent + [next];
      TraceGrows(op, chain, done, next, before);
      AtMostThreeAreSent(op, chain, sent);
      if !turn.sendSucceeds {
        return Failed("branding_transaction"), sent;
      }
      var read := ReadSnapshot(op, chain(|sent|).view);
      if read.Err? {
        return Failed(read.error), sent;
      }
      snapshot := read.value;
      if !PhaseAdvanced(op, next, snapshot) {
        return Failed("branding_no_effect"), sent;
      }
      if !snapshot.view.minted && !chain(|sent|).consentHolds {
        return Failed("branding_consent"), sent;
      }
      EffectIsProgress(op, before, chain(|sent|).view);
      phases := BrandingPhases(op, snapshot);
      if Shortfall(op, snapshot, chain(|sent|)) {
        return FundingRequired(phases), sent;
      }
    }
    NothingLeftIsComplete(op, chain(|sent|).view);
    AtMostThreeAreSent(op, chain, sent);
    if !Branded(op, snapshot) {
      return Failed("branding_incomplete"), sent;
    }
    return Complete(snapshot), sent;
  }
}
