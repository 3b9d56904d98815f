/**
 The deployment workflow: estimate, prepare, inspect, reconcile and finalize each read a durable state, check it
 against the artifact and the chain, and replace it atomically; finalization also writes a public record first.
 CREATE addresses and content hashes are injective; whatever the provider and the broadcast file say is arbitrary.
 */
module DeploymentWorkflow {
  import opened Wrappers

  datatype Phase = New | FundingRequired | Ready | Prepared | Submitted | Confirmed

  function Rank(p: Phase): nat {
    match p
    case New => 0
    case FundingRequired => 0
    case Ready => 0
    case Prepared => 1
    case Submitted => 2
    case Confirmed => 3
  }

  datatype Address = Create(deployer: string, nonce: nat) | Literal(text: string)

  datatype Estimate = Estimate(pendingNonce: nat, creationHash: string, shortfall: nat)

  datatype Intent = Intent(nonce: nat, predicted: Address, creationHash: string)

  datatype Block = Block(number: nat, hash: string)

  datatype Submission = Submission(transactionHash: string, contractAddress: Address, nonce: nat, creationHash: string,
                                   receipt: Option<Block>)

  datatype Workflow = Workflow(
    deployer: string,
    phase: Phase,
    estimate: Option<Estimate>,
    intent: Option<Intent>,
    submission: Option<Submission>,
    deploymentPath: Option<string>)

  /** The public record, without its verification time; `facts` is everything else it quotes from the chain. */
  datatype Record = Record(contractAddress: Address, deployer: string, transactionHash: string, nonce: nat,
                           block: Block, creationHash: string, facts: string)

  datatype Durable = Durable(workflow: Option<Workflow>, records: map<string, Record>)

  // ---------------------------------------------------------------- what the commands are told

  datatype CreateTransaction = CreateTransaction(from: string, hasDestination: bool, value: nat, nonce: nat,
                                                 inputHash: string)

  datatype Broadcast = Broadcast(transaction: CreateTransaction, transactionHash: string, contractAddress: Address,
                                 receipt: Option<(Address, Block)>)

  datatype Confirmation = Confirmation(creationHash: string, receiptAddress: Address, block: Block,
                                       transaction: CreateTransaction, transactionBlockHash: string, codeMatches: bool,
                                       facts: string)

  datatype Command =
    | EstimateFunding(deployer: string, pendingNonce: nat, creationHash: string, shortfall: nat)
    | PrepareBroadcast(creationHash: string, pendingNonce: nat)
    | InspectBroadcast(creationHash: string, broadcast: Broadcast)
    | Reconcile(receipt: Option<(Address, Block)>)
    | Finalize(path: string, confirmation: Confirmation, stopsAfterRecord: bool)

  // ---------------------------------------------------------------- the commands

  function EstimateCommand(d: Durable, deployer: string, nonce: nat, creationHash: string,
                           shortfall: nat): Option<Workflow>
  {
    var w := if d.workflow.Some? then d.workflow.value else Workflow(deployer, New, None, None, None, None);
    if w.deployer != deployer || Rank(w.phase) > 0 then None
    else
      Some(w.(estimate := Some(Estimate(nonce, creationHash, shortfall)),
              phase := if shortfall == 0 then Ready else FundingRequired))
  }

  function PrepareCommand(w: Workflow, creationHash: string, pendingNonce: nat): Option<Workflow> {
    if (w.phase != Ready && w.phase != Prepared) || w.estimate.None? || w.estimate.value.shortfall != 0 then None
    else
      var e := w.estimate.value;
      var intent := Intent(e.pendingNonce, Create(w.deployer, e.pendingNonce), creationHash);
      if creationHash != e.creationHash || pendingNonce != e.pendingNonce || (w.intent.Some? && w.intent.value != intent)
      then None
      else Some(w.(intent := Some(intent), phase := Prepared))
  }

  predicate IsCreate(t: CreateTransaction, deployer: string, nonce: nat, creationHash: string) {
    t.from == deployer && !t.hasDestination && t.value == 0 && t.nonce == nonce && t.inputHash == creationHash
  }

  predicate SameSubmission(a: Submission, b: Submission) { a.(receipt := None) == b.(receipt := None) }

  /** An inspection without a receipt drops the receipt that an earlier one had recorded. */
  function InspectCommand(w: Workflow, creationHash: string, b: Broadcast): Option<Workflow> {
    if (w.phase != Prepared && w.phase != Submitted) || w.estimate.None? || w.intent.None? then None
    else
      var e, i := w.estimate.value, w.intent.value;
      var receiptOk := b.receipt.None? || b.receipt.value.0 == b.contractAddress;
      var submission := Submission(b.transactionHash, b.contractAddress, i.nonce, creationHash,
                                   if b.receipt.Some? then Some(b.receipt.value.1) else None);
      if creationHash != e.creationHash || creationHash != i.creationHash || i.nonce != e.pendingNonce
         || !IsCreate(b.transaction, w.deployer, i.nonce, creationHash)
         || i.predicted != Create(w.deployer, i.nonce) || b.contractAddress != i.predicted || !receiptOk
         || (w.submission.Some? && !SameSubmission(w.submission.value, submission))
      then None
      else Some(w.(submission := Some(submission), phase := Submitted))
  }

  function ReconcileCommand(w: Workflow, receipt: Option<(Address, Block)>): Option<Workflow> {
    if w.submission.None? || receipt.None? || receipt.value.0 != w.submission.value.contractAddress then None
    else Some(w.(submission := Some(w.submission.value.(receipt := Some(receipt.value.1)))))
  }

  /** The record finalization would write, if every check passes. */
  function FinalRecord(w: Workflow, path: string, c: Confirmation): Option<Record> {
    if w.submission.None? || w.intent.None? || w.estimate.None? || (w.phase.Confirmed? && w.deploymentPath != Some(path))
    then None
    else
      var s, i, e := w.submission.value, w.intent.value, w.estimate.value;
      if c.creationHash != e.creationHash || c.creationHash != i.creationHash || c.creationHash != s.creationHash
         || (s.receipt.Some? && s.receipt.value != c.block) || (w.phase.Confirmed? && s.receipt.None?)
         || !IsCreate(c.transaction, w.deployer, i.nonce, c.creationHash) || s.nonce != i.nonce
         || i.predicted != Create(w.deployer, i.nonce) || s.contractAddress != i.predicted
         || c.transactionBlockHash != c.block.hash || c.receiptAddress != s.contractAddress || !c.codeMatches
      then None
      else Some(Record(s.contractAddress, w.deployer, s.transactionHash, i.nonce, c.block, e.creationHash, c.facts))
  }

  function ConfirmedBy(w: Workflow, path: string, r: Record): Workflow
    requires w.submission.Some?
  {
    w.(phase := Confirmed, deploymentPath := Some(path),
       submission := Some(w.submission.value.(receipt := Some(r.block))))
  }

  /** One command; a refused one changes nothing, and finalization may stop between its two writes. */
  function Next(d: Durable, c: Command): Durable {
    match c
    case EstimateFunding(deployer, nonce, creationHash, shortfall) =>
      var w := EstimateCommand(d, deployer, nonce, creationHash, shortfall);
      if w.Some? then d.(workflow := w) else d
    case PrepareBroadcast(creationHash, pendingNonce) =>
      if d.workflow.None? then d
      else
        var w := PrepareCommand(d.workflow.value, creationHash, pendingNonce);
        if w.Some? then d.(workflow := w) else d
    case InspectBroadcast(creationHash, broadcast) =>
      if d.workflow.None? then d
      else
        var w := InspectCommand(d.workflow.value, creationHash, broadcast);
        if w.Some? then d.(workflow := w) else d
    case Reconcile(receipt) =>
      if d.workflow.None? then d
      else
        var w := ReconcileCommand(d.workflow.value, receipt);
        if w.Some? then d.(workflow := w) else d
    case Finalize(path, confirmation, stops) =>
      if d.workflow.None? then d
      else
        var r := FinalRecord(d.workflow.value, path, confirmation);
        if r.None? || (path in d.records && d.records[path] != r.value) then d
        else
          var recorded := d.(records := d.records[path := r.value]);
          if stops then recorded else recorded.(workflow := Some(ConfirmedBy(d.workflow.value, path, r.value)))
  }

  function Run(d: Durable, commands: seq<Command>): Durable {
    if commands == [] then d else Next(Run(d, commands[..|commands| - 1]), commands[|commands| - 1])
  }

  const FRESH := Durable(None, map[])

  // ---------------------------------------------------------------- the invariant

  /** Estimate, intent, submission and records all name one deployment. */
  predicate Coherent(w: Workflow) {
    && (Rank(w.phase) == 0 ==> w.intent.None? && w.submission.None?)
    && (Rank(w.phase) >= 1 ==>
          && w.estimate.Some? && w.intent.Some? && w.estimate.value.shortfall == 0
          && w.intent.value == Intent(w.estimate.value.pendingNonce, Create(w.deployer, w.estimate.value.pendingNonce),
                                      w.estimate.value.creationHash))
    && (Rank(w.phase) == 1 ==> w.submission.None?)
    && (Rank(w.phase) >= 2 ==>
          && w.submission.Some? && w.submission.value.contractAddress == w.intent.value.predicted
          && w.submission.value.nonce == w.intent.value.nonce
          && w.submission.value.creationHash == w.intent.value.creationHash)
    && (w.phase.Confirmed? ==> w.submission.value.receipt.Some? && w.deploymentPath.Some?)
  }

  predicate RecordFits(w: Workflow, r: Record) {
    && Rank(w.phase) >= 2 && w.submission.Some?
    && r.deployer == w.deployer && r.contractAddress == w.submission.value.contractAddress
    && r.transactionHash == w.submission.value.transactionHash && r.nonce == w.submission.value.nonce
    && r.creationHash == w.submission.value.creationHash
  }

  ghost predicate Inv(d: Durable) {
    && (d.workflow.None? ==> d.records == map[])
    && (d.workflow.Some? ==>
          && Coherent(d.workflow.value)
          && (forall p :: p in d.records ==> RecordFits(d.workflow.value, d.records[p]))
          && (d.workflow.value.phase.Confirmed? ==> d.workflow.value.deploymentPath.value in d.records))
  }

  /** The durable receipt of a confirmed workflow is the block of its record. */
  predicate ReceiptAgrees(d: Durable) {
    d.workflow.Some? && d.workflow.value.phase.Confirmed? ==>
      && d.workflow.value.submission.Some? && d.workflow.value.deploymentPath.Some?
      && d.workflow.value.deploymentPath.value in d.records
      && d.workflow.value.submission.value.receipt == Some(d.records[d.workflow.value.deploymentPath.value].block)
  }

  /** What is fixed by preparation and by submission stays fixed, phases only move forward, records only appear. */
  ghost predicate Forward(d: Durable, t: Durable) {
    && (forall p :: p in d.records ==> p in t.records && t.records[p] == d.records[p])
    && (d.workflow.Some? ==>
          && t.workflow.Some? && t.workflow.value.deployer == d.workflow.value.deployer
          && Rank(t.workflow.value.phase) >= Rank(d.workflow.value.phase)
          && (Rank(d.workflow.value.phase) >= 1 ==>
                t.workflow.value.estimate == d.workflow.value.estimate && t.workflow.value.intent == d.workflow.value.intent)
          && (d.workflow.value.submission.Some? ==>
                && t.workflow.value.submission.Some?
                && SameSubmission(t.workflow.value.submission.value, d.workflow.value.submission.value)))
  }

  lemma FinalizeKeeps(d: Durable, path: string, c: Confirmation, stops: bool)
    requires Inv(d)
    ensures Inv(Next(d, Finalize(path, c, stops))) && Forward(d, Next(d, Finalize(path, c, stops)))
  {
  }

  lemma PreparationKeeps(d: Durable, c: Command)
    requires Inv(d) && (c.EstimateFunding? || c.PrepareBroadcast?)
    ensures Inv(Next(d, c)) && Forward(d, Next(d, c))
  {
  }

  lemma InspectionKeeps(d: Durable, c: Command)
    requires Inv(d) && c.InspectBroadcast?
    ensures Inv(Next(d, c)) && Forward(d, Next(d, c))
  {
  }

  lemma ReconciliationKeeps(d: Durable, c: Command)
    requires Inv(d) && c.Reconcile?
    ensures Inv(Next(d, c)) && Forward(d, Next(d, c))
  {
  }

  lemma NextKeeps(d: Durable, c: Command)
    requires Inv(d)
    ensures Inv(Next(d, c)) && Forward(d, Next(d, c))
  {
    hide Inv, Forward, Next;
    match c
    case EstimateFunding(_, _, _, _) => PreparationKeeps(d, c);
    case PrepareBroadcast(_, _) => PreparationKeeps(d, c);
    case InspectBroadcast(_, _) => InspectionKeeps(d, c);
    case Reconcile(_) => ReconciliationKeeps(d, c);
    case Finalize(path, confirmation, stops) => FinalizeKeeps(d, path, confirmation, stops);
  }

  lemma ForwardTwice(d: Durable, t: Durable, u: Durable)
    requires Forward(d, t) && Forward(t, u)
    ensures Forward(d, u)
  {
  }

  lemma {:induction false} RunKeeps(d: Durable, commands: seq<Command>)
    requires Inv(d)
    ensures Inv(Run(d, commands)) && Forward(d, Run(d, commands))
  {
    if commands != [] {
      hide Inv, Forward, Next;
      var n := |commands| - 1;
      RunKeeps(d, commands[..n]);
      NextKeeps(Run(d, commands[..n]), commands[n]);
      ForwardTwice(d, Run(d, commands[..n]), Run(d, commands));
    }
  }

  // ---------------------------------------------------------------- exactly what each command accepts

  /** An estimate may be repeated until the deployment is prepared; it is ready when no fund is missing. */
  lemma EstimatesExactly(d: Durable, deployer: string, nonce: nat, creationHash: string, shortfall: nat)
    requires d.workflow.Some? ==> Coherent(d.workflow.value)
    ensures var r := EstimateCommand(d, deployer, nonce, creationHash, shortfall);
      && (r.Some? <==> d.workflow.None?
                       || (d.workflow.value.deployer == deployer && d.workflow.value.intent.None?))
      && (r.Some? ==>
            && r.value.deployer == deployer && r.value.estimate == Some(Estimate(nonce, creationHash, shortfall))
            && (r.value.phase.Ready? <==> shortfall == 0) && (r.value.phase.FundingRequired? <==> shortfall > 0)
            && r.value.intent.None? && r.value.submission.None?)
  {
  }

  /** Only the funded estimate of this code at this pending nonce is prepared, for its CREATE address. */
  lemma PreparesExactly(w: Workflow, creationHash: string, pendingNonce: nat)
    requires Coherent(w)
    ensures var r := PrepareCommand(w, creationHash, pendingNonce);
      && (r.Some? <==> w.phase in {Ready, Prepared} && w.estimate == Some(Estimate(pendingNonce, creationHash, 0)))
      && (r.Some? ==>
            && r.value.intent == Some(Intent(pendingNonce, Create(w.deployer, pendingNonce), creationHash))
            && r.value == w.(intent := r.value.intent, phase := Prepared))
  {
  }

  /** A prepared deployment is submitted by the one transaction that creates its code from its deployer and nonce. */
  lemma InspectsExactly(w: Workflow, creationHash: string, b: Broadcast)
    requires Coherent(w)
    ensures var r := InspectCommand(w, creationHash, b);
      && (r.Some? <==>
            && w.phase in {Prepared, Submitted} && creationHash == w.intent.value.creationHash
            && b.transaction == CreateTransaction(w.deployer, false, 0, w.intent.value.nonce, creationHash)
            && b.contractAddress == Create(w.deployer, w.intent.value.nonce)
            && (b.receipt.Some? ==> b.receipt.value.0 == Create(w.deployer, w.intent.value.nonce))
            && (w.phase.Submitted? ==> b.transactionHash == w.submission.value.transactionHash))
      && (r.Some? ==>
            && r.value.submission ==
               Some(Submission(b.transactionHash, b.contractAddress, w.intent.value.nonce, creationHash,
                               if b.receipt.Some? then Some(b.receipt.value.1) else None))
            && r.value == w.(submission := r.value.submission, phase := Submitted))
  {
  }

  lemma ReconcilesExactly(w: Workflow, receipt: Option<(Address, Block)>)
    requires Coherent(w)
    ensures var r := ReconcileCommand(w, receipt);
      && (r.Some? <==>
            w.submission.Some? && receipt.Some? && receipt.value.0 == Create(w.deployer, w.intent.value.nonce))
      && (r.Some? ==> r.value == w.(submission := Some(w.submission.value.(receipt := Some(receipt.value.1)))))
  {
  }

  /**
   A submitted deployment is recorded exactly when the chain shows its transaction and its code at its address, in the
   block of the receipt if one was seen; again only under the same path and in the same block. The record then names
   what was prepared and submitted.
   */
  lemma FinalizesExactly(w: Workflow, path: string, c: Confirmation)
    requires Coherent(w)
    ensures var r := FinalRecord(w, path, c);
      && (r.Some? <==>
            && w.phase in {Submitted, Confirmed} && (w.phase.Confirmed? ==> w.deploymentPath == Some(path))
            && c.transaction ==
               CreateTransaction(w.deployer, false, 0, w.intent.value.nonce, w.intent.value.creationHash)
            && c.creationHash == w.intent.value.creationHash
            && c.receiptAddress == Create(w.deployer, w.intent.value.nonce) && c.codeMatches
            && c.transactionBlockHash == c.block.hash
            && (w.submission.value.receipt.Some? ==> w.submission.value.receipt.value == c.block))
      && (r.Some? ==>
            r.value == Record(Create(w.deployer, w.intent.value.nonce), w.deployer, w.submission.value.transactionHash,
                              w.intent.value.nonce, c.block, w.intent.value.creationHash, c.facts))
  {
  }

  /** The record is written first; unless the command stops there, the workflow is then confirmed in its block. */
  lemma FinalizeConfirms(d: Durable, path: string, c: Confirmation, stops: bool)
    requires Inv(d) && d.workflow.Some? && FinalRecord(d.workflow.value, path, c).Some?
    requires path in d.records ==> d.records[path] == FinalRecord(d.workflow.value, path, c).value
    ensures var t, w := Next(d, Finalize(path, c, stops)), d.workflow.value;
      && t.records == d.records[path := FinalRecord(w, path, c).value]
      && t.workflow.Some?
      && t.workflow.value ==
         if stops then w
         else w.(phase := Confirmed, deploymentPath := Some(path),
                 submission := Some(w.submission.value.(receipt := Some(c.block))))
  {
  }

  // ---------------------------------------------------------------- what the runs promise

  /**
   One prepared deployment stays the only one: whatever commands follow and wherever finalization stops, every
   record ever written names the address, nonce and creation code that were fixed at preparation, and all records
   name the same transaction.
   */
  lemma OneDeployment(before: seq<Command>, after: seq<Command>, p: string, q: string)
    requires var d := Run(FRESH, before); d.workflow.Some? && Rank(d.workflow.value.phase) >= 1
    requires p in Run(Run(FRESH, before), after).records && q in Run(Run(FRESH, before), after).records
    ensures var i := Run(FRESH, before).workflow.value.intent;
      var r, s := Run(Run(FRESH, before), after).records[p], Run(Run(FRESH, before), after).records[q];
      && i.Some?
      && r.contractAddress == i.value.predicted == Create(r.deployer, i.value.nonce)
      && r.nonce == i.value.nonce && r.creationHash == i.value.creationHash
      && r.contractAddress == s.contractAddress && r.transactionHash == s.transactionHash
  {
    hide Next;
    RunKeeps(FRESH, before);
    RunKeeps(Run(FRESH, before), after);
    var t := Run(Run(FRESH, before), after);
    assert RecordFits(t.workflow.value, t.records[p]) && RecordFits(t.workflow.value, t.records[q]);
  }

  /** Finalization that stopped between its writes is completed by running it again with the same chain facts. */
  lemma FinalizeAgainCompletes(d: Durable, path: string, c: Confirmation)
    requires d.workflow.Some? && FinalRecord(d.workflow.value, path, c).Some?
    requires path in d.records ==> d.records[path] == FinalRecord(d.workflow.value, path, c).value
    ensures var stopped := Next(d, Finalize(path, c, true));
      Next(stopped, Finalize(path, c, false)) == Next(d, Finalize(path, c, false))
    ensures var done := Next(d, Finalize(path, c, false));
      done.workflow.value.phase.Confirmed? && Next(done, Finalize(path, c, false)) == done
  {
  }

  /** Only a reconciliation that sees another block can make the durable receipt differ from the public record. */
  lemma ReceiptAgreesExactly(d: Durable, c: Command)
    requires Inv(d) && ReceiptAgrees(d)
    ensures ReceiptAgrees(Next(d, c)) <==>
            !(&& d.workflow.Some? && d.workflow.value.phase.Confirmed? && c.Reconcile? && c.receipt.Some?
              && c.receipt.value.0 == d.workflow.value.submission.value.contractAddress
              && c.receipt.value.1 != d.records[d.workflow.value.deploymentPath.value].block)
  {
    NextKeeps(d, c);
  }

  predicate HasReceipt(d: Durable) {
    d.workflow.Some? && d.workflow.value.submission.Some? && d.workflow.value.submission.value.receipt.Some?
  }

  /** A recorded receipt survives any one command, except an accepted inspection or reconciliation that saw another
      block, or an accepted inspection of a broadcast file without receipts. */
  lemma ReceiptSurvivesExactly(d: Durable, c: Command)
    requires Inv(d) && HasReceipt(d)
    ensures var w, block := d.workflow.value, d.workflow.value.submission.value.receipt;
      HasReceipt(Next(d, c)) && Next(d, c).workflow.value.submission.value.receipt == block
      <==>
      && (c.InspectBroadcast? && InspectCommand(w, c.creationHash, c.broadcast).Some? ==>
            c.broadcast.receipt.Some? && Some(c.broadcast.receipt.value.1) == block)
      && (c.Reconcile? && ReconcileCommand(w, c.receipt).Some? ==> Some(c.receipt.value.1) == block)
  {
    NextKeeps(d, c);
  }

  const CREATED := Create("deployer", 3)
  const SEEN := Block(8, "hash")

  function Inspected(receipt: Option<(Address, Block)>): Command {
    InspectBroadcast("code", Broadcast(CreateTransaction("deployer", false, 0, 3, "code"), "tx", CREATED, receipt))
  }

  const TWO_INSPECTIONS: seq<Command> :=
    [EstimateFunding("deployer", 3, "code", 0), PrepareBroadcast("code", 3), Inspected(Some((CREATED, SEEN))),
     Inspected(None)]

  lemma RunStep(d: Durable, commands: seq<Command>, k: nat)
    requires k < |commands|
    ensures Run(d, commands[..k + 1]) == Next(Run(d, commands[..k]), commands[k])
  {
    assert commands[..k + 1][..k] == commands[..k];
  }

  /** From the first command on: the first inspection records a receipt, the second one is accepted and drops it. */
  lemma InspectMayForgetReceipt()
    ensures var before, after := Run(FRESH, TWO_INSPECTIONS[..3]), Run(FRESH, TWO_INSPECTIONS);
      && HasReceipt(before) && before.workflow.value.submission.value.receipt == Some(SEEN)
      && after.workflow.Some? && after.workflow.value.phase.Submitted? && after.workflow.value.submission.Some?
      && after.workflow.value.submission.value.receipt == None
  {
    var all := TWO_INSPECTIONS;
    assert all[..0] == [] && all[..4] == all;
    RunStep(FRESH, all, 0);
    RunStep(FRESH, all, 1);
    var prepared := Run(FRESH, all[..2]);
    assert prepared == Durable(Some(Workflow("deployer", Prepared, Some(Estimate(3, "code", 0)),
                                             Some(Intent(3, CREATED, "code")), None, None)), map[]);
    RunStep(FRESH, all, 2);
    RunStep(FRESH, all, 3);
  }

  // ---------------------------------------------------------------- the commands as methods

  /** The state file and the public records. Every command loads the state, checks, assigns its fields and saves. */
  class DeploymentFiles {
    var workflow: Option<Workflow>
    var records: map<string, Record>

    ghost function Value(): Durable
      reads this
    {
      Durable(workflow, records)
    }

    constructor ()
      ensures Value() == FRESH
    {
      workflow, records := None, map[];
    }

    method EstimateFunds(deployer: string, pendingNonce: nat, creationHash: string, shortfall: nat) returns (ok: bool)
      modifies this
      ensures Value() == Next(old(Value()), EstimateFunding(deployer, pendingNonce, creationHash, shortfall))
      ensures ok <==> EstimateCommand(old(Value()), deployer, pendingNonce, creationHash, shortfall).Some?
    {
      var state := if workflow.Some? then workflow.value else Workflow(deployer, New, None, None, None, None);
      if state.deployer != deployer || state.phase.Prepared? || state.phase.Submitted? || state.phase.Confirmed? {
        return false;
      }
      state := state.(estimate := Some(Estimate(pendingNonce, creationHash, shortfall)));
      state := state.(phase := if shortfall == 0 then Ready else FundingRequired);
      workflow := Some(state);
      return true;
    }

    method Prepare(creationHash: string, currentNonce: nat) returns (predicted: Option<Address>)
      modifies this
      ensures Value() == Next(old(Value()), PrepareBroadcast(creationHash, currentNonce))
      ensures predicted.Some? <==>
                old(workflow).Some? && PrepareCommand(old(workflow).value, creationHash, currentNonce).Some?
      ensures predicted.Some? ==>
                workflow.Some? && workflow.value.intent.Some? && workflow.value.intent.value.predicted == predicted.value
    {
      if workflow.None? || !(workflow.value.phase.Ready? || workflow.value.phase.Prepared?)
         || workflow.value.estimate.None? || workflow.value.estimate.value.shortfall != 0 {
        return None;
      }
      var state, estimate := workflow.value, workflow.value.estimate.value;
      if creationHash != estimate.creationHash || currentNonce != estimate.pendingNonce {
        return None;
      }
      var intent := Intent(estimate.pendingNonce, Create(state.deployer, estimate.pendingNonce), creationHash);
      if state.intent.Some? && state.intent.value != intent {
        return None;
      }
      state := state.(intent := Some(intent));
      state := state.(phase := Prepared);
      workflow := Some(state);
      return Some(intent.predicted);
    }

    method Inspect(creationHash: string, b: Broadcast) returns (ok: bool)
      modifies this
      ensures Value() == Next(old(Value()), InspectBroadcast(creationHash, b))
      ensures ok <==> old(workflow).Some? && InspectCommand(old(workflow).value, creationHash, b).Some?
    {
      if workflow.None? || !(workflow.value.phase.Prepared? || workflow.value.phase.Submitted?)
         || workflow.value.estimate.None? || workflow.value.intent.None? {
        return false;
      }
      var state, estimate, intent := workflow.value, workflow.value.estimate.value, workflow.value.intent.value;
      if creationHash != estimate.creationHash || creationHash != intent.creationHash {
        return false;
      }
      var t := b.transaction;
      if t.from != state.deployer || t.hasDestination || t.value != 0
         || t.nonce != estimate.pendingNonce || t.nonce != intent.nonce || t.inputHash != creationHash {
        return false;
      }
      var predicted := Create(state.deployer, t.nonce);
      if predicted != intent.predicted || b.contractAddress != predicted {
        return false;
      }
      var submission := Submission(b.transactionHash, b.contractAddress, t.nonce, creationHash, None);
      if b.receipt.Some? {
        if b.receipt.value.0 != b.contractAddress {
          return false;
        }
        submission := submission.(receipt := Some(b.receipt.value.1));
      }
      if state.submission.Some? && !SameSubmission(state.submission.value, submission) {
        return false;
      }
      state := state.(submission := Some(submission));
      state := state.(phase := Submitted);
      workflow := Some(state);
      return true;
    }

    method ReconcileReceipt(receipt: Option<(Address, Block)>) returns (mined: bool)
      modifies this
      ensures Value() == Next(old(Value()), Reconcile(receipt))
      ensures mined <==> old(workflow).Some? && ReconcileCommand(old(workflow).value, receipt).Some?
    {
      if workflow.None? || workflow.value.submission.None? || receipt.None? {
        return false;
      }
      var submission := workflow.value.submission.value;
      if receipt.value.0 != submission.contractAddress {
        return false;
      }
      submission := submission.(receipt := Some(receipt.value.1));
      workflow := Some(workflow.value.(submission := Some(submission)));
      return true;
    }

    /** The public record is written before the state; `stops` is a stop between the two writes. */
    method FinalizeDeployment(path: string, c: Confirmation, stops: bool) returns (ok: bool)
      modifies this
      ensures Value() == Next(old(Value()), Finalize(path, c, stops))
      ensures ok <==>
              && !stops && old(workflow).Some? && FinalRecord(old(workflow).value, path, c).Some?
              && (path in old(records) ==> old(records)[path] == FinalRecord(old(workflow).value, path, c).value)
    {
      if workflow.None? || workflow.value.submission.None? || workflow.value.intent.None? || workflow.value.estimate.None? {
        return false;
      }
      var state := workflow.value;
      var submission, intent, estimate := state.submission.value, state.intent.value, state.estimate.value;
      if state.phase.Confirmed? && state.deploymentPath != Some(path) {
        return false;
      }
      if c.creationHash != estimate.creationHash || c.creationHash != intent.creationHash
         || c.creationHash != submission.creationHash {
        return false;
      }
      if (submission.receipt.Some? && submission.receipt.value != c.block)
         || (state.phase.Confirmed? && submission.receipt.None?) {
        return false;
      }
      var t := c.transaction;
      if t.from != state.deployer || t.hasDestination || t.value != 0 || t.inputHash != c.creationHash
         || t.nonce != intent.nonce || t.nonce != submission.nonce {
        return false;
      }
      var predicted := Create(state.deployer, t.nonce);
      if predicted != intent.predicted || predicted != submission.contractAddress
         || c.transactionBlockHash != c.block.hash || c.receiptAddress != submission.contractAddress || !c.codeMatches {
        return false;
      }
      var canonical := Record(submission.contractAddress, state.deployer, submission.transactionHash, t.nonce, c.block,
                              estimate.creationHash, c.facts);
      if path in records && records[path] != canonical {
        return false;
      }
      records := records[path := canonical];
      if stops {
        return false;
      }
      state := state.(phase := Confirmed);
      state := state.(deploymentPath := Some(path));
      state := state.(submission := Some(submission.(receipt := Some(c.block))));
      workflow := Some(state);
      return true;
    }
  }

  // ---------------------------------------------------------------- the runtime template

  datatype Region = Region(start: nat, length: nat)

  predicate Covered(regions: seq<Region>, i: nat) {
    exists k :: 0 <= k < |regions| && regions[k].start <= i < regions[k].start + regions[k].length
  }

  /** The on-chain code equals the compiled code everywhere outside the immutable references. */
  method VerifyRuntimeTemplate(expected: seq<bv8>, actual: seq<bv8>, regions: seq<Region>) returns (ok: bool)
    ensures ok <==>
            && |expected| == |actual|
            && (forall k :: 0 <= k < |regions| ==> regions[k].start + regions[k].length <= |expected|)
            && (forall i :: 0 <= i < |expected| && !Covered(regions, i) ==> expected[i] == actual[i])
  {
    if |expected| != |actual| {
      return false;
    }
    var mask := new bool[|expected|](i => false);
    for k := 0 to |regions|
      invariant forall j :: 0 <= j < k ==> regions[j].start + regions[j].length <= |expected|
      invariant forall i :: 0 <= i < mask.Length ==> (mask[i] <==> Covered(regions[..k], i))
    {
      var region := regions[k];
      if region.start + region.length > mask.Length {
        return false;
      }
      for i := region.start to region.start + region.length
        invariant forall j :: 0 <= j < mask.Length ==> (mask[j] <==> Covered(regions[..k], j) || region.start <= j < i)
      {
        mask[i] := true;
      }
      forall j | 0 <= j < mask.Length
        ensures Covered(regions[..k + 1], j) <==> Covered(regions[..k], j) || region.start <= j < region.start + region.length
      {
        CoveredByOneMore(regions, k, j);
      }
    }
    assert regions[..|regions|] == regions;
    for i := 0 to |expected|
      invariant forall j :: 0 <= j < i && !Covered(regions, j) ==> expected[j] == actual[j]
    {
      if !mask[i] && expected[i] != actual[i] {
        return false;
      }
    }
    return true;
  }

  lemma CoveredByOneMore(regions: seq<Region>, k: nat, j: nat)
    requires k < |regions|
    ensures Covered(regions[..k + 1], j) <==>
            Covered(regions[..k], j) || regions[k].start <= j < regions[k].start + regions[k].length
  {
    var more, some := regions[..k + 1], regions[..k];
    if Covered(some, j) {
      var m :| 0 <= m < |some| && some[m].start <= j < some[m].start + some[m].length;
      assert more[m] == some[m];
    }
    if Covered(more, j) {
      var m :| 0 <= m < |more| && more[m].start <= j < more[m].start + more[m].length;
      if m < k {
        assert some[m] == more[m];
      }
    }
    assert more[k] == regions[k];
  }
}
