/**
 Identity discovery over the registry's event history: a scan from the deployment block, or a continuation
 from a checkpoint that carries ids, operator owners and registrations forward. Log reads return exactly the
 accepted logs of their interval; contract reads are arbitrary, except that a blanket approval is what its last
 event says. The checkpoints lie on the canonical chain.
 */
module Discovery {
  import opened Wrappers
  import opened LogReader
  import Text

  const ERC8004_START_BLOCK: nat := 41_663_783
  const MAX_DISCOVERY_IDS: nat := 256
  const MAX_OPERATOR_OWNERS: nat := 64

  datatype Registration = Registration(agentId: nat, transactionHash: string)

  datatype Checkpoint = Checkpoint(
    throughBlock: nat,
    associatedAgentIds: set<nat>,
    walletRegistrations: set<Registration>,
    operatorOwners: set<string>)

  // ---------------------------------------------------------------- what an event associates

  /** An event that ties the wallet itself to an agent. */
  function DirectId(e: RegistryEvent, wallet: string): Option<nat> {
    match e
    case Registered(id, owner, _) => if owner == wallet then Some(id) else None
    case Transfer(id, to) => if to == wallet then Some(id) else None
    case Approval(id, approved) => if approved == wallet then Some(id) else None
    case AgentWalletSet(id, value) => if value == wallet then Some(id) else None
    case ApprovalForAll(_, _, _) => None
  }

  /** An event that ties an owner to an agent. */
  function OwnedId(e: RegistryEvent, owner: string): Option<nat> {
    match e
    case Registered(id, o, _) => if o == owner then Some(id) else None
    case Transfer(id, to) => if to == owner then Some(id) else None
    case _ => None
  }

  // ---------------------------------------------------------------- the scans, as sets

  function Within(chain: seq<Log>, first: nat, last: nat): set<RegistryEvent> {
    set i | 0 <= i < |chain| && first <= chain[i].block <= last :: chain[i].event
  }

  function IdsBy(events: set<RegistryEvent>, id: RegistryEvent -> Option<nat>): set<nat> {
    set e | e in events && id(e).Some? :: id(e).value
  }

  function Direct(wallet: string): RegistryEvent -> Option<nat> { e => DirectId(e, wallet) }

  function Owned(owner: string): RegistryEvent -> Option<nat> { e => OwnedId(e, owner) }

  function DirectIds(events: set<RegistryEvent>, wallet: string): set<nat> { IdsBy(events, Direct(wallet)) }

  function OwnedIds(events: set<RegistryEvent>, owner: string): set<nat> { IdsBy(events, Owned(owner)) }

  function Operators(events: set<RegistryEvent>, wallet: string): set<string> {
    set e | e in events && e.ApprovalForAll? && e.operator == wallet :: e.owner
  }

  function Granted(events: set<RegistryEvent>, wallet: string): set<string> {
    set e | e in events && e.ApprovalForAll? && e.operator == wallet && e.allowed :: e.owner
  }

  function Registrations(events: set<RegistryEvent>, wallet: string): set<Registration> {
    set e | e in events && e.Registered? && e.owner == wallet :: Registration(e.agentId, e.transactionHash)
  }

  /** `isApprovedForAll` at a block: what the last approval event up to it says. */
  function ApprovedAt(chain: seq<Log>, owner: string, wallet: string, block: nat): bool {
    if chain == [] then false
    else
      var last := chain[|chain| - 1];
      if last.block <= block && last.event.ApprovalForAll? && last.event.owner == owner && last.event.operator == wallet
      then last.event.allowed
      else ApprovedAt(chain[..|chain| - 1], owner, wallet, block)
  }

  // ---------------------------------------------------------------- one discovery

  function FirstBlock(checkpoint: Option<Checkpoint>): nat {
    if checkpoint.None? then ERC8004_START_BLOCK else checkpoint.value.throughBlock + 1
  }

  function Carried(checkpoint: Option<Checkpoint>): Checkpoint {
    if checkpoint.None? then Checkpoint(0, {}, {}, {}) else checkpoint.value
  }

  /** A grant seen in the new range exposes everything its owner registered since deployment. */
  function OwnerFirstBlock(owner: string, granted: set<string>, first: nat): nat {
    if owner in granted then ERC8004_START_BLOCK else first
  }

  function IdsOfOwners(chain: seq<Log>, wallet: string, owners: set<string>, granted: set<string>, first: nat,
                       block: nat): set<nat> {
    set o, i | o in owners && ApprovedAt(chain, o, wallet, block)
               && i in OwnedIds(Within(chain, OwnerFirstBlock(o, granted, first), block), o) :: i
  }

  function Discovered(chain: seq<Log>, wallet: string, block: nat, checkpoint: Option<Checkpoint>): Checkpoint {
    var first, carried := FirstBlock(checkpoint), Carried(checkpoint);
    var events := Within(chain, first, block);
    var owners := carried.operatorOwners + Operators(events, wallet);
    Checkpoint(
      block,
      carried.associatedAgentIds + DirectIds(events, wallet)
      + IdsOfOwners(chain, wallet, owners, Granted(events, wallet), first, block),
      carried.walletRegistrations + Registrations(events, wallet),
      owners)
  }

  /** Discovery from the deployment block, then continued through one checkpoint after another. */
  function Continued(chain: seq<Log>, wallet: string, blocks: seq<nat>): Checkpoint
    requires blocks != []
  {
    var n := |blocks| - 1;
    Discovered(chain, wallet, blocks[n], if n == 0 then None else Some(Continued(chain, wallet, blocks[..n])))
  }

  function Full(chain: seq<Log>, wallet: string, block: nat): Checkpoint { Discovered(chain, wallet, block, None) }

  predicate Ascending(blocks: seq<nat>) {
    && (forall i :: 0 <= i < |blocks| ==> blocks[i] >= ERC8004_START_BLOCK)
    && (forall i, j :: 0 <= i < j < |blocks| ==> blocks[i] <= blocks[j])
  }

  // ---------------------------------------------------------------- what a chain of checkpoints finds

  /** Everything of the owners that are approved at one block, up to that block. */
  function ApprovedIds(chain: seq<Log>, wallet: string, block: nat): set<nat> {
    var events := Within(chain, ERC8004_START_BLOCK, block);
    set o, i | o in Operators(events, wallet) && ApprovedAt(chain, o, wallet, block) && i in OwnedIds(events, o) :: i
  }

  function EverApprovedIds(chain: seq<Log>, wallet: string, blocks: seq<nat>): set<nat> {
    if blocks == [] then {}
    else EverApprovedIds(chain, wallet, blocks[..|blocks| - 1]) + ApprovedIds(chain, wallet, blocks[|blocks| - 1])
  }

  lemma WithinSplits(chain: seq<Log>, mid: nat, last: nat)
    requires ERC8004_START_BLOCK <= mid <= last
    ensures Within(chain, ERC8004_START_BLOCK, last)
            == Within(chain, ERC8004_START_BLOCK, mid) + Within(chain, mid + 1, last)
  {
  }

  lemma UnionSplits(a: set<RegistryEvent>, b: set<RegistryEvent>, wallet: string)
    ensures DirectIds(a + b, wallet) == DirectIds(a, wallet) + DirectIds(b, wallet)
    ensures OwnedIds(a + b, wallet) == OwnedIds(a, wallet) + OwnedIds(b, wallet)
    ensures Operators(a + b, wallet) == Operators(a, wallet) + Operators(b, wallet)
    ensures Registrations(a + b, wallet) == Registrations(a, wallet) + Registrations(b, wallet)
  {
  }

  lemma {:induction false} ApprovedIsOperator(chain: seq<Log>, owner: string, wallet: string, block: nat)
    requires ApprovedAt(chain, owner, wallet, block)
    requires forall i :: 0 <= i < |chain| ==> chain[i].block >= ERC8004_START_BLOCK
    ensures owner in Operators(Within(chain, ERC8004_START_BLOCK, block), wallet)
  {
    var n := |chain| - 1;
    var e := chain[n].event;
    if chain[n].block <= block && e.ApprovalForAll? && e.owner == owner && e.operator == wallet {
      assert e in Within(chain, ERC8004_START_BLOCK, block);
    } else {
      ApprovedIsOperator(chain[..n], owner, wallet, block);
      WithinPrefix(chain, ERC8004_START_BLOCK, block);
    }
  }

  lemma WithinPrefix(chain: seq<Log>, first: nat, last: nat)
    requires chain != []
    ensures Within(chain[..|chain| - 1], first, last) <= Within(chain, first, last)
  {
    forall e | e in Within(chain[..|chain| - 1], first, last)
      ensures e in Within(chain, first, last)
    {
      var i :| 0 <= i < |chain| - 1 && first <= chain[i].block <= last && chain[i].event == e;
    }
  }

  /** Approved now: either granted since the checkpoint, or already approved at the checkpoint. */
  lemma {:induction false} ApprovalIsNewOrOld(chain: seq<Log>, owner: string, wallet: string, mid: nat, last: nat)
    requires mid <= last && ApprovedAt(chain, owner, wallet, last)
    ensures owner in Granted(Within(chain, mid + 1, last), wallet) || ApprovedAt(chain, owner, wallet, mid)
  {
    var n := |chain| - 1;
    var e := chain[n].event;
    if e.ApprovalForAll? && e.owner == owner && e.operator == wallet && chain[n].block <= last {
      if chain[n].block > mid {
        assert e in Within(chain, mid + 1, last);
      }
    } else {
      ApprovalIsNewOrOld(chain[..n], owner, wallet, mid, last);
      WithinPrefix(chain, mid + 1, last);
    }
  }

  lemma FullFinds(chain: seq<Log>, wallet: string, block: nat)
    ensures var found, events := Full(chain, wallet, block), Within(chain, ERC8004_START_BLOCK, block);
      && found.associatedAgentIds == DirectIds(events, wallet) + ApprovedIds(chain, wallet, block)
      && found.operatorOwners == Operators(events, wallet)
      && found.walletRegistrations == Registrations(events, wallet)
  {
    hide Within, DirectIds, OwnedIds, Operators, Granted, Registrations, ApprovedAt;
    var events := Within(chain, ERC8004_START_BLOCK, block);
    var owners, granted := Operators(events, wallet), Granted(events, wallet);
    var scanned, approved := IdsOfOwners(chain, wallet, owners, granted, ERC8004_START_BLOCK, block),
        ApprovedIds(chain, wallet, block);
    forall i | i in scanned
      ensures i in approved
    {
      var o :| o in owners && ApprovedAt(chain, o, wallet, block)
               && i in OwnedIds(Within(chain, OwnerFirstBlock(o, granted, ERC8004_START_BLOCK), block), o);
      assert i in OwnedIds(events, o);
    }
    forall i | i in approved
      ensures i in scanned
    {
      var o :| o in owners && ApprovedAt(chain, o, wallet, block) && i in OwnedIds(events, o);
      assert i in OwnedIds(Within(chain, OwnerFirstBlock(o, granted, ERC8004_START_BLOCK), block), o);
    }
    assert {} + owners == owners;
    assert {} + Registrations(events, wallet) == Registrations(events, wallet);
    assert {} + DirectIds(events, wallet) == DirectIds(events, wallet);
  }

  /** What one continuation adds to the ids of approved owners. */
  lemma OwnersCatchUp(chain: seq<Log>, wallet: string, mid: nat, last: nat, owners: set<string>, carried: set<nat>)
    requires ERC8004_START_BLOCK <= mid <= last
    requires owners == Operators(Within(chain, ERC8004_START_BLOCK, last), wallet)
    requires ApprovedIds(chain, wallet, mid) <= carried
    requires forall i :: 0 <= i < |chain| ==> chain[i].block >= ERC8004_START_BLOCK
    ensures carried + IdsOfOwners(chain, wallet, owners, Granted(Within(chain, mid + 1, last), wallet), mid + 1, last)
            == carried + ApprovedIds(chain, wallet, last)
  {
    hide ApprovedAt, Operators, OwnedIds, Within, Granted;
    var granted := Granted(Within(chain, mid + 1, last), wallet);
    var scanned := IdsOfOwners(chain, wallet, owners, granted, mid + 1, last);
    var all := Within(chain, ERC8004_START_BLOCK, last);
    WithinSplits(chain, mid, last);
    forall i | i in scanned
      ensures i in ApprovedIds(chain, wallet, last)
    {
      var o :| o in owners && ApprovedAt(chain, o, wallet, last)
               && i in OwnedIds(Within(chain, OwnerFirstBlock(o, granted, mid + 1), last), o);
      UnionSplits(Within(chain, ERC8004_START_BLOCK, mid), Within(chain, mid + 1, last), o);
      assert i in OwnedIds(all, o);
    }
    forall i | i in ApprovedIds(chain, wallet, last)
      ensures i in carried + scanned
    {
      var o :| o in owners && ApprovedAt(chain, o, wallet, last) && i in OwnedIds(all, o);
      UnionSplits(Within(chain, ERC8004_START_BLOCK, mid), Within(chain, mid + 1, last), o);
      ApprovalIsNewOrOld(chain, o, wallet, mid, last);
      if o in granted || i in OwnedIds(Within(chain, mid + 1, last), o) {
        assert i in OwnedIds(Within(chain, OwnerFirstBlock(o, granted, mid + 1), last), o);
      } else {
        ApprovedIsOperator(chain, o, wallet, mid);
        assert i in ApprovedIds(chain, wallet, mid);
      }
    }
    var approved := ApprovedIds(chain, wallet, last);
    assert scanned <= approved && approved <= carried + scanned;
    assert carried + scanned == carried + approved;
  }

  /**
   The exact reach of discovery through any chain of checkpoints: the same owners and registrations as one full
   scan, the wallet's own ids, and the ids of every owner who was approved at any of the checkpoints.
   */
  lemma {:induction false} ContinuedFinds(chain: seq<Log>, wallet: string, blocks: seq<nat>)
    requires blocks != [] && Ascending(blocks)
    requires forall i :: 0 <= i < |chain| ==> chain[i].block >= ERC8004_START_BLOCK
    ensures var found, full := Continued(chain, wallet, blocks), Full(chain, wallet, blocks[|blocks| - 1]);
      && found.throughBlock == blocks[|blocks| - 1]
      && found.operatorOwners == full.operatorOwners
      && found.walletRegistrations == full.walletRegistrations
      && found.associatedAgentIds == full.associatedAgentIds + EverApprovedIds(chain, wallet, blocks)
  {
    hide Within, DirectIds, OwnedIds, Operators, Granted, Registrations, ApprovedAt, IdsOfOwners, ApprovedIds;
    var n := |blocks| - 1;
    FullFinds(chain, wallet, blocks[n]);
    if n == 0 {
      assert blocks[..0] == [];
    } else {
      var earlier := blocks[..n];
      var mid, last := blocks[n - 1], blocks[n];
      assert earlier[|earlier| - 1] == mid;
      ContinuedFinds(chain, wallet, earlier);
      FullFinds(chain, wallet, mid);
      WithinSplits(chain, mid, last);
      UnionSplits(Within(chain, ERC8004_START_BLOCK, mid), Within(chain, mid + 1, last), wallet);
      var before := Continued(chain, wallet, earlier);
      OwnersCatchUp(chain, wallet, mid, last, Continued(chain, wallet, blocks).operatorOwners,
                    before.associatedAgentIds + DirectIds(Within(chain, mid + 1, last), wallet));
    }
  }

  /** Every id beyond the full scan belongs to an owner who was approved at an earlier checkpoint. */
  lemma {:induction false} ExtraIdsHaveAnOwner(chain: seq<Log>, wallet: string, blocks: seq<nat>, id: nat)
    returns (j: nat, owner: string)
    requires blocks != [] && Ascending(blocks)
    requires forall i :: 0 <= i < |chain| ==> chain[i].block >= ERC8004_START_BLOCK
    requires id in Continued(chain, wallet, blocks).associatedAgentIds
    requires id !in Full(chain, wallet, blocks[|blocks| - 1]).associatedAgentIds
    ensures j < |blocks| - 1 && ApprovedAt(chain, owner, wallet, blocks[j])
    ensures id in OwnedIds(Within(chain, ERC8004_START_BLOCK, blocks[j]), owner)
  {
    hide Continued, Full, Within, OwnedIds, ApprovedAt, ApprovedIds, DirectIds;
    ContinuedFinds(chain, wallet, blocks);
    FullFinds(chain, wallet, blocks[|blocks| - 1]);
    j, owner := EverApprovedWitness(chain, wallet, blocks, id);
  }

  lemma {:induction false} EverApprovedWitness(chain: seq<Log>, wallet: string, blocks: seq<nat>, id: nat)
    returns (j: nat, owner: string)
    requires id in EverApprovedIds(chain, wallet, blocks)
    ensures j < |blocks| && ApprovedAt(chain, owner, wallet, blocks[j])
    ensures id in OwnedIds(Within(chain, ERC8004_START_BLOCK, blocks[j]), owner)
    ensures j == |blocks| - 1 ==> id in ApprovedIds(chain, wallet, blocks[j])
  {
    var n := |blocks| - 1;
    if id in ApprovedIds(chain, wallet, blocks[n]) {
      var events := Within(chain, ERC8004_START_BLOCK, blocks[n]);
      var o :| o in Operators(events, wallet) && ApprovedAt(chain, o, wallet, blocks[n]) && id in OwnedIds(events, o);
      j, owner := n, o;
    } else {
      j, owner := EverApprovedWitness(chain, wallet, blocks[..n], id);
    }
  }

  // ---------------------------------------------------------------- the registry itself, event by event

  /** Who owns an agent at a block: whoever last registered or received it. */
  function OwnerAt(chain: seq<Log>, id: nat, block: nat): Option<string> {
    if chain == [] then None
    else
      var last := chain[|chain| - 1];
      if last.block <= block && last.event.Registered? && last.event.agentId == id then Some(last.event.owner)
      else if last.block <= block && last.event.Transfer? && last.event.tokenId == id then Some(last.event.to)
      else OwnerAt(chain[..|chain| - 1], id, block)
  }

  /** Who may act for an agent at a block: whoever was last approved for it. */
  function ApprovedForAt(chain: seq<Log>, id: nat, block: nat): Option<string> {
    if chain == [] then None
    else
      var last := chain[|chain| - 1];
      if last.block <= block && last.event.Approval? && last.event.tokenId == id then Some(last.event.approved)
      else ApprovedForAt(chain[..|chain| - 1], id, block)
  }

  /** The wallet that an agent's metadata names at a block. */
  function AgentWalletAt(chain: seq<Log>, id: nat, block: nat): Option<string> {
    if chain == [] then None
    else
      var last := chain[|chain| - 1];
      if last.block <= block && last.event.AgentWalletSet? && last.event.agentId == id then Some(last.event.wallet)
      else AgentWalletAt(chain[..|chain| - 1], id, block)
  }

  /** The wallet owns the agent, is approved for it, or is its agent wallet. */
  predicate Holds(chain: seq<Log>, wallet: string, id: nat, block: nat) {
    || OwnerAt(chain, id, block) == Some(wallet)
    || ApprovedForAt(chain, id, block) == Some(wallet)
    || AgentWalletAt(chain, id, block) == Some(wallet)
  }

  /** So it was after some event up to the block. */
  ghost predicate EverHeld(chain: seq<Log>, wallet: string, id: nat, block: nat) {
    exists k :: 0 <= k <= |chain| && Holds(chain[..k], wallet, id, block)
  }

  ghost predicate EverOwned(chain: seq<Log>, owner: string, id: nat, block: nat) {
    exists k :: 0 <= k <= |chain| && OwnerAt(chain[..k], id, block) == Some(owner)
  }

  predicate FromDeployment(chain: seq<Log>) {
    forall i :: 0 <= i < |chain| ==> chain[i].block >= ERC8004_START_BLOCK
  }

  /** One event more: what it changes about an agent is its new holder. */
  lemma HoldsStep(chain: seq<Log>, wallet: string, id: nat, block: nat)
    requires chain != []
    ensures var n := |chain| - 1;
      && (chain[n].block <= block && DirectId(chain[n].event, wallet) == Some(id) ==> Holds(chain, wallet, id, block))
      && (Holds(chain, wallet, id, block) ==>
            || Holds(chain[..n], wallet, id, block)
            || (chain[n].block <= block && DirectId(chain[n].event, wallet) == Some(id)))
      && (chain[n].block <= block && OwnedId(chain[n].event, wallet) == Some(id)
          ==> OwnerAt(chain, id, block) == Some(wallet))
      && (OwnerAt(chain, id, block) == Some(wallet) ==>
            || OwnerAt(chain[..n], id, block) == Some(wallet)
            || (chain[n].block <= block && OwnedId(chain[n].event, wallet) == Some(id)))
  {
  }

  /** The scanned events name exactly the agents that were ever held, and those that an owner ever owned. */
  lemma {:induction false} ScansAreHoldings(chain: seq<Log>, wallet: string, id: nat, block: nat)
    requires FromDeployment(chain)
    ensures id in DirectIds(Within(chain, ERC8004_START_BLOCK, block), wallet) <==> EverHeld(chain, wallet, id, block)
    ensures id in OwnedIds(Within(chain, ERC8004_START_BLOCK, block), wallet) <==> EverOwned(chain, wallet, id, block)
  {
    hide Within, DirectIds, OwnedIds, Holds, OwnerAt;
    if chain == [] {
      NothingHeld(wallet, id, block);
    } else {
      var n := |chain| - 1;
      ScansAreHoldings(chain[..n], wallet, id, block);
      WithinStep(chain, ERC8004_START_BLOCK, block);
      HoldsStep(chain, wallet, id, block);
      PrefixHoldings(chain, wallet, id, block);
      var before := Within(chain[..n], ERC8004_START_BLOCK, block);
      OneEventMore(before, chain[n].event, wallet);
      assert before + {} == before;
    }
  }

  lemma NothingHeld(wallet: string, id: nat, block: nat)
    ensures !EverHeld([], wallet, id, block) && !EverOwned([], wallet, id, block)
    ensures DirectIds(Within([], ERC8004_START_BLOCK, block), wallet) == {}
    ensures OwnedIds(Within([], ERC8004_START_BLOCK, block), wallet) == {}
  {
    var none: seq<Log> := [];
    assert forall k :: 0 <= k <= |none| ==> none[..k] == none;
  }

  lemma PrefixHoldings(chain: seq<Log>, wallet: string, id: nat, block: nat)
    requires chain != []
    ensures var some := chain[..|chain| - 1];
      && (Holds(some, wallet, id, block) ==> EverHeld(some, wallet, id, block))
      && (OwnerAt(some, id, block) == Some(wallet) ==> EverOwned(some, wallet, id, block))
      && (EverHeld(chain, wallet, id, block) <==> EverHeld(some, wallet, id, block) || Holds(chain, wallet, id, block))
      && (EverOwned(chain, wallet, id, block) <==>
            EverOwned(some, wallet, id, block) || OwnerAt(chain, id, block) == Some(wallet))
  {
    hide Holds, OwnerAt;
    var n := |chain| - 1;
    assert chain[..|chain|] == chain && chain[..n][..n] == chain[..n];
    assert forall k :: 0 <= k <= n ==> chain[..n][..k] == chain[..k];
  }

  lemma OneEventMore(events: set<RegistryEvent>, e: RegistryEvent, wallet: string)
    ensures DirectIds(events + {e}, wallet)
            == DirectIds(events, wallet) + if DirectId(e, wallet).Some? then {DirectId(e, wallet).value} else {}
    ensures OwnedIds(events + {e}, wallet)
            == OwnedIds(events, wallet) + if OwnedId(e, wallet).Some? then {OwnedId(e, wallet).value} else {}
  {
    hide DirectId, OwnedId;
    IdsByAdd(events, e, Direct(wallet));
    IdsByAdd(events, e, Owned(wallet));
  }

  /** The wallet has been given a blanket approval by this owner, whether or not it still has it. */
  ghost predicate EverOperator(chain: seq<Log>, owner: string, wallet: string, block: nat) {
    exists i, allowed :: 0 <= i < |chain| && chain[i].block <= block
                         && chain[i].event == ApprovalForAll(owner, wallet, allowed)
  }

  /**
   What a full scan finds, told from the registry alone: the agents that the wallet ever held, those ever owned by an
   owner who approves the wallet now, the owners that ever decided about it, and the wallet's own registrations.
   */
  lemma FullFindsHoldings(chain: seq<Log>, wallet: string, block: nat)
    requires FromDeployment(chain)
    ensures var found := Full(chain, wallet, block);
      && (forall id :: id in found.associatedAgentIds <==>
            || EverHeld(chain, wallet, id, block)
            || exists o :: ApprovedAt(chain, o, wallet, block) && EverOwned(chain, o, id, block))
      && (forall o :: o in found.operatorOwners <==> EverOperator(chain, o, wallet, block))
      && (forall r :: r in found.walletRegistrations <==>
            exists i :: 0 <= i < |chain| && chain[i].block <= block
                        && chain[i].event == Registered(r.agentId, wallet, r.transactionHash))
  {
    hide ApprovedAt, DirectIds, OwnedIds, EverHeld, EverOwned;
    var found, events := Full(chain, wallet, block), Within(chain, ERC8004_START_BLOCK, block);
    FullFinds(chain, wallet, block);
    hide Full, Within;
    forall id
      ensures id in found.associatedAgentIds <==>
              || EverHeld(chain, wallet, id, block)
              || exists o :: ApprovedAt(chain, o, wallet, block) && EverOwned(chain, o, id, block)
    {
      ScansAreHoldings(chain, wallet, id, block);
      forall o
        ensures id in OwnedIds(events, o) <==> EverOwned(chain, o, id, block)
        ensures ApprovedAt(chain, o, wallet, block) ==> o in Operators(events, wallet)
      {
        ScansAreHoldings(chain, o, id, block);
        if ApprovedAt(chain, o, wallet, block) {
          ApprovedIsOperator(chain, o, wallet, block);
        }
      }
    }
    OperatorsAreDeciders(chain, wallet, block);
    RegistrationsAreOwn(chain, wallet, block);
  }

  lemma OperatorsAreDeciders(chain: seq<Log>, wallet: string, block: nat)
    requires FromDeployment(chain)
    ensures forall o :: o in Operators(Within(chain, ERC8004_START_BLOCK, block), wallet)
                        <==> EverOperator(chain, o, wallet, block)
  {
    forall o | EverOperator(chain, o, wallet, block)
      ensures o in Operators(Within(chain, ERC8004_START_BLOCK, block), wallet)
    {
      var i, allowed :| 0 <= i < |chain| && chain[i].block <= block
                        && chain[i].event == ApprovalForAll(o, wallet, allowed);
      assert chain[i].event in Within(chain, ERC8004_START_BLOCK, block);
    }
  }

  lemma RegistrationsAreOwn(chain: seq<Log>, wallet: string, block: nat)
    requires FromDeployment(chain)
    ensures forall r :: r in Registrations(Within(chain, ERC8004_START_BLOCK, block), wallet) <==>
                        exists i :: 0 <= i < |chain| && chain[i].block <= block
                                    && chain[i].event == Registered(r.agentId, wallet, r.transactionHash)
  {
    forall i | 0 <= i < |chain| && chain[i].block <= block && chain[i].event.Registered?
      ensures chain[i].event in Within(chain, ERC8004_START_BLOCK, block)
    {
    }
  }

  /**
   No agent is overlooked, from the deployment block or through any chain of checkpoints: whatever the wallet holds at
   the observed block, and whatever an owner who then approves it owns, is among the ids found.
   */
  lemma NothingHeldIsOverlooked(chain: seq<Log>, wallet: string, blocks: seq<nat>, id: nat)
    requires blocks != [] && Ascending(blocks) && FromDeployment(chain)
    requires var block := blocks[|blocks| - 1];
      || Holds(chain, wallet, id, block)
      || exists o :: ApprovedAt(chain, o, wallet, block) && OwnerAt(chain, id, block) == Some(o)
    ensures id in Full(chain, wallet, blocks[|blocks| - 1]).associatedAgentIds
    ensures id in Continued(chain, wallet, blocks).associatedAgentIds
  {
    var block := blocks[|blocks| - 1];
    ContinuedFinds(chain, wallet, blocks);
    FullFindsHoldings(chain, wallet, block);
    hide Full, Continued, Holds, ApprovedAt, OwnerAt;
    assert chain[..|chain|] == chain;
    if Holds(chain, wallet, id, block) {
      assert EverHeld(chain, wallet, id, block);
    } else {
      var o :| ApprovedAt(chain, o, wallet, block) && OwnerAt(chain, id, block) == Some(o);
      assert EverOwned(chain, o, id, block);
    }
  }

  lemma ScanOverlooksNothing(chain: seq<Log>, wallet: string, block: nat)
    requires FromDeployment(chain) && block >= ERC8004_START_BLOCK
    ensures forall id ::
              || Holds(chain, wallet, id, block)
              || (exists o :: ApprovedAt(chain, o, wallet, block) && OwnerAt(chain, id, block) == Some(o))
              ==> id in Full(chain, wallet, block).associatedAgentIds
  {
    hide Holds, ApprovedAt, OwnerAt, Full;
    forall id |
      || Holds(chain, wallet, id, block)
      || exists o :: ApprovedAt(chain, o, wallet, block) && OwnerAt(chain, id, block) == Some(o)
      ensures id in Full(chain, wallet, block).associatedAgentIds
    {
      NothingHeldIsOverlooked(chain, wallet, [block], id);
    }
  }

  // ---------------------------------------------------------------- the mint gate

  /** What inspection of one agent at the observed block shows. */
  datatype Agent = Agent(
    metadataTentacleId: Option<string>,
    profileTentacleIds: set<string>,
    profileInboxIds: set<string>,
    declaresAllegiance: bool,
    protocolCompatible: bool,
    authorized: bool,
    walletVerified: bool)

  datatype Context = Context(tentacleId: string, xmtpInboxId: string)

  datatype Class = Class(sameTentacle: bool, ambiguousTentacle: bool)

  predicate ProvenUnrelated(a: Agent, c: Context) {
    && ((a.metadataTentacleId.Some? && a.metadataTentacleId.value != c.tentacleId)
        || exists id :: id in a.profileTentacleIds && id != c.tentacleId)
    && a.metadataTentacleId != Some(c.tentacleId) && c.tentacleId !in a.profileTentacleIds
    && c.xmtpInboxId !in a.profileInboxIds
  }

  /** A relationship of any kind, unless the agent provably belongs to another tentacle, stops a mint. */
  function Classify(a: Agent, c: Context): (r: Class)
    ensures r.sameTentacle || r.ambiguousTentacle <==>
            && !ProvenUnrelated(a, c)
            && (a.authorized || a.walletVerified || (a.declaresAllegiance && a.protocolCompatible)
                || a.metadataTentacleId == Some(c.tentacleId) || c.tentacleId in a.profileTentacleIds
                || c.xmtpInboxId in a.profileInboxIds)
    ensures !(r.sameTentacle && r.ambiguousTentacle)
    ensures r.sameTentacle <==>
            && (a.authorized || a.walletVerified)
            && (a.metadataTentacleId.Some? ==> a.metadataTentacleId.value == c.tentacleId)
            && (forall id :: id in a.profileTentacleIds ==> id == c.tentacleId)
            && (a.metadataTentacleId.Some? || a.profileTentacleIds != {}
                || (a.declaresAllegiance && a.protocolCompatible && c.xmtpInboxId in a.profileInboxIds))
  {
    var exactMetadata := a.metadataTentacleId == Some(c.tentacleId);
    var exactProfile := c.tentacleId in a.profileTentacleIds;
    var exactXmtp := c.xmtpInboxId in a.profileInboxIds;
    var conflicting :=
      || (a.metadataTentacleId.Some? && a.metadataTentacleId.value != c.tentacleId)
      || exists id :: id in a.profileTentacleIds && id != c.tentacleId;
    var eligible := a.declaresAllegiance && a.protocolCompatible;
    var related := a.authorized || a.walletVerified;
    var same := related && !conflicting && (exactMetadata || exactProfile || (eligible && exactXmtp));
    var unrelated := conflicting && !exactMetadata && !exactProfile && !exactXmtp;
    Class(same, !same && !unrelated && (related || eligible || exactMetadata || exactProfile || exactXmtp))
  }

  /** `view` is the registry at the observed block; a token that does not exist blocks nothing. */
  predicate Blocks(view: nat -> Option<Agent>, c: Context, id: nat) {
    view(id).Some? && var k := Classify(view(id).value, c); k.sameTentacle || k.ambiguousTentacle
  }

  /** `buildDiscoveryJournal` issues a mint authorization only when no discovered agent blocks it. */
  predicate AuthorizesMint(found: Checkpoint, view: nat -> Option<Agent>, c: Context) {
    forall id :: id in found.associatedAgentIds ==> !Blocks(view, c, id)
  }

  /** Checkpoints never make the gate more permissive: what they authorize, a full scan authorizes. */
  lemma CheckpointsNeverHideAnIdentity(chain: seq<Log>, wallet: string, blocks: seq<nat>, view: nat -> Option<Agent>,
                                       c: Context)
    requires blocks != [] && Ascending(blocks)
    requires forall i :: 0 <= i < |chain| ==> chain[i].block >= ERC8004_START_BLOCK
    ensures AuthorizesMint(Continued(chain, wallet, blocks), view, c) <==>
            && AuthorizesMint(Full(chain, wallet, blocks[|blocks| - 1]), view, c)
            && forall id :: id in EverApprovedIds(chain, wallet, blocks[..|blocks| - 1]) ==> !Blocks(view, c, id)
  {
    hide Blocks, Continued, Full, ApprovedIds;
    ContinuedFinds(chain, wallet, blocks);
    FullFinds(chain, wallet, blocks[|blocks| - 1]);
    assert forall id :: id in EverApprovedIds(chain, wallet, blocks) <==>
                        id in EverApprovedIds(chain, wallet, blocks[..|blocks| - 1])
                        || id in ApprovedIds(chain, wallet, blocks[|blocks| - 1]);
  }

  /** A chain in which an owner registers an agent and approves the wallet, and one block later revokes. */
  function RevokedChain(s: nat): seq<Log> {
    [Log(s, Registered(7, "owner", "tx")), Log(s, ApprovalForAll("owner", "wallet", true)),
     Log(s + 1, ApprovalForAll("owner", "wallet", false))]
  }

  lemma RevokedApproval(s: nat, t: nat, o: string)
    requires t == s + 1
    ensures ApprovedAt(RevokedChain(s), "owner", "wallet", s) && !ApprovedAt(RevokedChain(s), o, "wallet", t)
  {
    var chain := RevokedChain(s);
    var two, one := chain[..2], chain[..1];
    assert two[..1] == one && one[..0] == [];
    assert !ApprovedAt(one, o, "wallet", t);
    assert o != "owner" ==> ApprovedAt(chain, o, "wallet", t) == ApprovedAt(two, o, "wallet", t)
                            == ApprovedAt(one, o, "wallet", t);
  }

  lemma RevokedIds(s: nat, t: nat)
    requires s == ERC8004_START_BLOCK && t == s + 1
    ensures 7 in ApprovedIds(RevokedChain(s), "wallet", s)
    ensures Full(RevokedChain(s), "wallet", t).associatedAgentIds == {}
  {
    var chain := RevokedChain(s);
    var now := Within(chain, s, s);
    assert chain[0].event in now && chain[1].event in now;
    assert OwnedId(chain[0].event, "owner") == Some(7);
    assert "owner" in Operators(now, "wallet") && 7 in OwnedIds(now, "owner");
    RevokedApproval(s, t, "owner");
    FullFinds(chain, "wallet", t);
    forall o: string
      ensures !ApprovedAt(chain, o, "wallet", t)
    {
      RevokedApproval(s, t, o);
    }
  }

  /** The converse fails: an owner who was approved at a checkpoint, and no longer is, keeps blocking. */
  lemma CheckpointsMayBlockMore()
    ensures exists chain: seq<Log>, blocks: seq<nat>, view: nat -> Option<Agent>, c: Context ::
              && blocks != [] && Ascending(blocks)
              && AuthorizesMint(Full(chain, "wallet", blocks[|blocks| - 1]), view, c)
              && !AuthorizesMint(Continued(chain, "wallet", blocks), view, c)
  {
    hide ApprovedIds, Full, Continued, EverApprovedIds;
    var s := ERC8004_START_BLOCK;
    var chain, blocks := RevokedChain(s), [s, s + 1];
    var agent := Agent(None, {}, {}, true, true, false, false);
    var view: nat -> Option<Agent> := id => if id == 7 then Some(agent) else None;
    var c := Context("tentacle", "inbox");
    assert Blocks(view, c, 7);
    assert blocks[..1] == [s];
    RevokedIds(s, s + 1);
    OneCheckpoint(chain, s);
    CheckpointsNeverHideAnIdentity(chain, "wallet", blocks, view, c);
    assert !AuthorizesMint(Continued(chain, "wallet", blocks), view, c);
    assert AuthorizesMint(Full(chain, "wallet", blocks[|blocks| - 1]), view, c);
  }

  lemma OneCheckpoint(chain: seq<Log>, s: nat)
    ensures EverApprovedIds(chain, "wallet", [s]) == ApprovedIds(chain, "wallet", s)
  {
    assert [s][..0] == [];
    assert EverApprovedIds(chain, "wallet", []) == {};
  }

  // ---------------------------------------------------------------- the loops

  /** The events of a list of logs. */
  function Events(logs: seq<Log>): set<RegistryEvent> {
    if logs == [] then {} else Events(logs[..|logs| - 1]) + {logs[|logs| - 1].event}
  }

  function Chosen(events: set<RegistryEvent>, select: RegistryEvent -> bool): set<RegistryEvent> {
    set e | e in events && select(e)
  }

  lemma EventsTake(logs: seq<Log>, i: nat)
    requires i < |logs|
    ensures Events(logs[..i + 1]) == Events(logs[..i]) + {logs[i].event}
  {
    assert logs[..i + 1][..i] == logs[..i];
  }

  lemma WithinStep(chain: seq<Log>, first: nat, last: nat)
    requires chain != []
    ensures var n := |chain| - 1;
            Within(chain, first, last) ==
            Within(chain[..n], first, last) + if first <= chain[n].block <= last then {chain[n].event} else {}
  {
    var n := |chain| - 1;
    forall e | e in Within(chain, first, last)
      ensures e in Within(chain[..n], first, last) || (first <= chain[n].block <= last && e == chain[n].event)
    {
      var i :| 0 <= i < |chain| && first <= chain[i].block <= last && chain[i].event == e;
      if i < n {
        assert chain[..n][i] == chain[i];
      }
    }
    WithinPrefix(chain, first, last);
  }

  /** A scan yields exactly the selected events of its interval. */
  lemma {:induction false} ScanEvents(chain: seq<Log>, first: nat, last: nat, select: RegistryEvent -> bool)
    ensures Events(Scan(chain, first, last, select)) == Chosen(Within(chain, first, last), select)
  {
    if chain != [] {
      var n := |chain| - 1;
      ScanEvents(chain[..n], first, last, select);
      WithinStep(chain, first, last);
      var before := Scan(chain[..n], first, last, select);
      assert (before + [chain[n]])[..|before|] == before;
      assert before + [] == before;
    }
  }

  lemma {:induction false} EventsPrefix(logs: seq<Log>, i: nat)
    requires i <= |logs|
    ensures Events(logs[..i]) <= Events(logs)
    decreases |logs| - i
  {
    if i < |logs| {
      EventsTake(logs, i);
      EventsPrefix(logs, i + 1);
    } else {
      assert logs[..i] == logs;
    }
  }

  lemma FewerIds(a: set<nat>, b: set<nat>)
    requires a <= b
    ensures |a| <= |b|
  {
    assert b == a + (b - a);
  }

  lemma IdsByAdd(events: set<RegistryEvent>, e: RegistryEvent, id: RegistryEvent -> Option<nat>)
    ensures IdsBy(events + {e}, id) == IdsBy(events, id) + if id(e).Some? then {id(e).value} else {}
  {
  }

  lemma IdsByGrow(some: set<RegistryEvent>, all: set<RegistryEvent>, id: RegistryEvent -> Option<nat>)
    requires some <= all
    ensures IdsBy(some, id) <= IdsBy(all, id)
  {
  }

  /** `addDiscoveryId` for every log: gives up as soon as there are too many ids. */
  method CollectIds(logs: seq<Log>, id: RegistryEvent -> Option<nat>, start: set<nat>) returns (ids: set<nat>, ok: bool)
    requires |start| <= MAX_DISCOVERY_IDS
    ensures ok <==> |start + IdsBy(Events(logs), id)| <= MAX_DISCOVERY_IDS
    ensures ok ==> ids == start + IdsBy(Events(logs), id)
  {
    hide IdsBy, Events;
    ids, ok := start, true;
    NoEvents(id);
    assert start + IdsBy(Events([]), id) == start;
    for i := 0 to |logs|
      invariant ids == start + IdsBy(Events(logs[..i]), id) && |ids| <= MAX_DISCOVERY_IDS
    {
      EventsTake(logs, i);
      IdsByAdd(Events(logs[..i]), logs[i].event, id);
      if id(logs[i].event).Some? {
        ids := ids + {id(logs[i].event).value};
      }
      assert ids == start + IdsBy(Events(logs[..i + 1]), id);
      if |ids| > MAX_DISCOVERY_IDS {
        EventsPrefix(logs, i + 1);
        IdsByGrow(Events(logs[..i + 1]), Events(logs), id);
        FewerIds(ids, start + IdsBy(Events(logs), id));
        return ids, false;
      }
    }
    assert logs[..|logs|] == logs;
  }

  lemma NoEvents(id: RegistryEvent -> Option<nat>)
    ensures Events([]) == {} && IdsBy({}, id) == {}
    ensures forall wallet :: Operators({}, wallet) == {} && Granted({}, wallet) == {} && Registrations({}, wallet) == {}
  {
  }

  /** The operator owners named in the new range, and those granted in it. */
  method CollectOperators(logs: seq<Log>, wallet: string, start: set<string>)
    returns (owners: set<string>, granted: set<string>, ok: bool)
    requires |start| <= MAX_OPERATOR_OWNERS
    ensures ok <==> |start + Operators(Events(logs), wallet)| <= MAX_OPERATOR_OWNERS
    ensures ok ==> owners == start + Operators(Events(logs), wallet) && granted == Granted(Events(logs), wallet)
  {
    hide Events, Operators, Granted;
    owners, granted, ok := start, {}, true;
    NoOperators(wallet, start);
    assert logs[..0] == [];
    for i := 0 to |logs|
      invariant owners == start + Operators(Events(logs[..i]), wallet) && |owners| <= MAX_OPERATOR_OWNERS
      invariant granted == Granted(Events(logs[..i]), wallet)
    {
      OperatorsStep(logs, i, wallet, start);
      var e := logs[i].event;
      if e.ApprovalForAll? && e.operator == wallet {
        owners := owners + {e.owner};
        if e.allowed {
          granted := granted + {e.owner};
        }
      }
      if |owners| > MAX_OPERATOR_OWNERS {
        EventsPrefix(logs, i + 1);
        OperatorsGrow(Events(logs[..i + 1]), Events(logs), wallet);
        Text.FewerNames(owners, start + Operators(Events(logs), wallet));
        return owners, granted, false;
      }
    }
    assert logs[..|logs|] == logs;
  }

  lemma NoOperators(wallet: string, start: set<string>)
    ensures start + Operators(Events([]), wallet) == start && Granted(Events([]), wallet) == {}
  {
  }

  lemma OperatorsStep(logs: seq<Log>, i: nat, wallet: string, start: set<string>)
    requires i < |logs|
    ensures var before, now, e := Events(logs[..i]), Events(logs[..i + 1]), logs[i].event;
      var mine := e.ApprovalForAll? && e.operator == wallet;
      && (mine ==> start + Operators(now, wallet) == (start + Operators(before, wallet)) + {e.owner})
      && (!mine ==> start + Operators(now, wallet) == start + Operators(before, wallet))
      && (mine && e.allowed ==> Granted(now, wallet) == Granted(before, wallet) + {e.owner})
      && (!(mine && e.allowed) ==> Granted(now, wallet) == Granted(before, wallet))
  {
    hide Events, Operators, Granted;
    EventsTake(logs, i);
    OperatorsAdd(Events(logs[..i]), logs[i].event, wallet);
  }

  lemma OperatorsAdd(events: set<RegistryEvent>, e: RegistryEvent, wallet: string)
    ensures var mine := e.ApprovalForAll? && e.operator == wallet;
      && Operators(events + {e}, wallet) == Operators(events, wallet) + (if mine then {e.owner} else {})
      && Granted(events + {e}, wallet) == Granted(events, wallet) + (if mine && e.allowed then {e.owner} else {})
  {
  }

  lemma OperatorsGrow(some: set<RegistryEvent>, all: set<RegistryEvent>, wallet: string)
    requires some <= all
    ensures Operators(some, wallet) <= Operators(all, wallet)
  {
  }

  method CollectRegistrations(logs: seq<Log>, wallet: string, start: set<Registration>)
    returns (registrations: set<Registration>)
    ensures registrations == start + Registrations(Events(logs), wallet)
  {
    hide Events;
    registrations := start;
    NoEvents(Direct(wallet));
    assert start + Registrations(Events([]), wallet) == start;
    for i := 0 to |logs|
      invariant registrations == start + Registrations(Events(logs[..i]), wallet)
    {
      EventsTake(logs, i);
      RegistrationsAdd(Events(logs[..i]), logs[i].event, wallet);
      var e := logs[i].event;
      if e.Registered? && e.owner == wallet {
        registrations := registrations + {Registration(e.agentId, e.transactionHash)};
      }
      assert registrations == start + Registrations(Events(logs[..i + 1]), wallet);
    }
    assert logs[..|logs|] == logs;
  }

  lemma RegistrationsAdd(events: set<RegistryEvent>, e: RegistryEvent, wallet: string)
    ensures Registrations(events + {e}, wallet) == Registrations(events, wallet)
            + if e.Registered? && e.owner == wallet then {Registration(e.agentId, e.transactionHash)} else {}
  {
  }

  // ---------------------------------------------------------------- the whole call

  /** The bounds of a discovery; its sets never shrink while it runs. */
  predicate WithinBounds(c: Checkpoint) {
    && |c.associatedAgentIds| <= MAX_DISCOVERY_IDS && |c.operatorOwners| <= MAX_OPERATOR_OWNERS
    && |c.walletRegistrations| <= MAX_DISCOVERY_IDS
  }

  function ConcernsWallet(wallet: string): RegistryEvent -> bool {
    e => DirectId(e, wallet).Some? || (e.ApprovalForAll? && e.operator == wallet)
  }

  function ShowsOwner(owner: string): RegistryEvent -> bool { e => OwnedId(e, owner).Some? }

  /** The accept filters lose nothing the later loops look for. */
  lemma IrrelevantIsDropped(events: set<RegistryEvent>, wallet: string)
    ensures var chosen := Chosen(events, ConcernsWallet(wallet));
      && DirectIds(chosen, wallet) == DirectIds(events, wallet)
      && Operators(chosen, wallet) == Operators(events, wallet)
      && Granted(chosen, wallet) == Granted(events, wallet)
      && Registrations(chosen, wallet) == Registrations(events, wallet)
  {
  }

  lemma UnownedIsDropped(events: set<RegistryEvent>, owner: string)
    ensures OwnedIds(Chosen(events, ShowsOwner(owner)), owner) == OwnedIds(events, owner)
  {
  }

  function OwnerIds(chain: seq<Log>, wallet: string, owner: string, granted: set<string>, first: nat,
                    block: nat): set<nat>
  {
    if !ApprovedAt(chain, owner, wallet, block) then {}
    else OwnedIds(Within(chain, OwnerFirstBlock(owner, granted, first), block), owner)
  }

  lemma OneMoreOwner(chain: seq<Log>, wallet: string, owners: set<string>, owner: string, granted: set<string>,
                     first: nat, block: nat)
    ensures IdsOfOwners(chain, wallet, owners + {owner}, granted, first, block)
            == IdsOfOwners(chain, wallet, owners, granted, first, block)
               + OwnerIds(chain, wallet, owner, granted, first, block)
  {
    hide ApprovedAt, OwnedIds, Within;
    var more, some := IdsOfOwners(chain, wallet, owners + {owner}, granted, first, block),
        IdsOfOwners(chain, wallet, owners, granted, first, block);
    forall i | i in more
      ensures i in some || i in OwnerIds(chain, wallet, owner, granted, first, block)
    {
      var o :| o in owners + {owner} && ApprovedAt(chain, o, wallet, block)
               && i in OwnedIds(Within(chain, OwnerFirstBlock(o, granted, first), block), o);
    }
    forall i | i in some
      ensures i in more
    {
      var o :| o in owners && ApprovedAt(chain, o, wallet, block)
               && i in OwnedIds(Within(chain, OwnerFirstBlock(o, granted, first), block), o);
      assert o in owners + {owner};
    }
    forall i | i in OwnerIds(chain, wallet, owner, granted, first, block)
      ensures i in more
    {
      assert owner in owners + {owner};
    }
  }

  lemma FewerOwners(chain: seq<Log>, wallet: string, some: set<string>, all: set<string>, granted: set<string>,
                    first: nat, block: nat)
    requires some <= all
    ensures IdsOfOwners(chain, wallet, some, granted, first, block)
            <= IdsOfOwners(chain, wallet, all, granted, first, block)
  {
    hide ApprovedAt, OwnedIds, Within;
  }

  /** What one owner registered or received, if the wallet is approved by this owner now. */
  method EnumerateOwner(chain: seq<Log>, wallet: string, owner: string, granted: set<string>, first: nat, block: nat,
                        start: set<nat>) returns (ids: set<nat>, ok: bool)
    requires |start| <= MAX_DISCOVERY_IDS
    ensures ok <==> |start + OwnerIds(chain, wallet, owner, granted, first, block)| <= MAX_DISCOVERY_IDS
    ensures ok ==> ids == start + OwnerIds(chain, wallet, owner, granted, first, block)
  {
    hide ApprovedAt, OwnedIds, Within, Scan, Events;
    if !ApprovedAt(chain, owner, wallet, block) {
      assert start + {} == start;
      return start, true;
    }
    var from := OwnerFirstBlock(owner, granted, first);
    var ownerLogs := Scan(chain, from, block, ShowsOwner(owner));
    ScanEvents(chain, from, block, ShowsOwner(owner));
    UnownedIsDropped(Within(chain, from, block), owner);
    OwnedIsIdsBy(Events(ownerLogs), owner);
    ids, ok := CollectIds(ownerLogs, Owned(owner), start);
  }

  /** Every owner is enumerated, in any order, until there are too many ids. */
  method EnumerateOwners(chain: seq<Log>, wallet: string, owners: set<string>, granted: set<string>, first: nat,
                         block: nat, start: set<nat>) returns (ids: set<nat>, ok: bool)
    requires |start| <= MAX_DISCOVERY_IDS
    ensures ok <==> |start + IdsOfOwners(chain, wallet, owners, granted, first, block)| <= MAX_DISCOVERY_IDS
    ensures ok ==> ids == start + IdsOfOwners(chain, wallet, owners, granted, first, block)
  {
    hide OwnerIds, IdsOfOwners;
    ids, ok := start, true;
    ghost var done: set<string> := {};
    var left := owners;
    NoOwners(chain, wallet, granted, first, block);
    assert start + {} == start;
    while left != {}
      invariant done + left == owners && ids == start + IdsOfOwners(chain, wallet, done, granted, first, block)
      invariant |ids| <= MAX_DISCOVERY_IDS
      decreases |left|
    {
      var owner :| owner in left;
      left := left - {owner};
      OneMoreOwner(chain, wallet, done, owner, granted, first, block);
      assert ids + OwnerIds(chain, wallet, owner, granted, first, block)
             == start + IdsOfOwners(chain, wallet, done + {owner}, granted, first, block);
      ids, ok := EnumerateOwner(chain, wallet, owner, granted, first, block, ids);
      done := done + {owner};
      if !ok {
        FewerOwners(chain, wallet, done, owners, granted, first, block);
        FewerIds(start + IdsOfOwners(chain, wallet, done, granted, first, block),
                 start + IdsOfOwners(chain, wallet, owners, granted, first, block));
        return;
      }
    }
    assert done == owners;
  }

  lemma OwnedIsIdsBy(events: set<RegistryEvent>, owner: string)
    ensures OwnedIds(events, owner) == IdsBy(events, Owned(owner))
  {
  }

  lemma NoOwners(chain: seq<Log>, wallet: string, granted: set<string>, first: nat, block: nat)
    ensures IdsOfOwners(chain, wallet, {}, granted, first, block) == {}
  {
  }

  /**
   A mint is only ever authorized when no agent that the wallet holds now, or that an owner who approves it now owns,
   blocks it, however often discovery was continued from checkpoints.
   */
  lemma AuthorizedMintsAreSafe(chain: seq<Log>, wallet: string, blocks: seq<nat>, view: nat -> Option<Agent>,
                               c: Context, id: nat)
    requires blocks != [] && Ascending(blocks) && FromDeployment(chain)
    requires AuthorizesMint(Continued(chain, wallet, blocks), view, c)
    requires var block := blocks[|blocks| - 1];
      || Holds(chain, wallet, id, block)
      || exists o :: ApprovedAt(chain, o, wallet, block) && OwnerAt(chain, id, block) == Some(o)
    ensures view(id).Some? ==> ProvenUnrelated(view(id).value, c)
                               || !(view(id).value.authorized || view(id).value.walletVerified)
  {
    NothingHeldIsOverlooked(chain, wallet, blocks, id);
    hide Continued, Holds, ApprovedAt, OwnerAt;
    assert !Blocks(view, c, id);
  }

  /**
   One discovery, from the deployment block or from a checkpoint. (The log budget of the reads and the candidate
   limit of the later inspection are not part of it.)
   */
  method DiscoverAgents(chain: seq<Log>, wallet: string, observedBlock: nat, checkpoint: Option<Checkpoint>)
    returns (r: Result<Checkpoint, string>)
    requires checkpoint.Some? ==> WithinBounds(checkpoint.value)
    ensures r.Ok? <==>
            && observedBlock >= ERC8004_START_BLOCK
            && (checkpoint.Some? ==> checkpoint.value.throughBlock <= observedBlock)
            && WithinBounds(Discovered(chain, wallet, observedBlock, checkpoint))
    ensures r.Ok? ==> r.value == Discovered(chain, wallet, observedBlock, checkpoint)
    ensures r.Ok? && checkpoint.None? && FromDeployment(chain) ==>
              forall id ::
                || Holds(chain, wallet, id, observedBlock)
                || (exists o ::
                      ApprovedAt(chain, o, wallet, observedBlock) && OwnerAt(chain, id, observedBlock) == Some(o))
                ==> id in r.value.associatedAgentIds
  {
    hide Holds, OwnerAt, ApprovedAt, Within, IdsOfOwners, Operators, Granted, Registrations, IdsBy, Events, Scan, Direct,
         Chosen;
    if observedBlock < ERC8004_START_BLOCK {
      return Err("discovery_observation");
    }
    if checkpoint.Some? && checkpoint.value.throughBlock > observedBlock {
      return Err("discovery_checkpoint");
    }
    var first, carried := FirstBlock(checkpoint), Carried(checkpoint);
    var combined := Scan(chain, first, observedBlock, ConcernsWallet(wallet));
    ghost var events := Within(chain, first, observedBlock);
    ScanEvents(chain, first, observedBlock, ConcernsWallet(wallet));
    IrrelevantIsDropped(events, wallet);
    ghost var expected := Discovered(chain, wallet, observedBlock, checkpoint);
    var ids, idsFit := CollectIds(combined, Direct(wallet), carried.associatedAgentIds);
    if !idsFit {
      FewerIds(carried.associatedAgentIds + DirectIds(events, wallet), expected.associatedAgentIds);
      return Err("candidate_limit");
    }
    var owners, granted, ownersFit := CollectOperators(combined, wallet, carried.operatorOwners);
    if !ownersFit {
      return Err("candidate_limit");
    }
    ids, idsFit := EnumerateOwners(chain, wallet, owners, granted, first, observedBlock, ids);
    if !idsFit {
      return Err("candidate_limit");
    }
    var registrations := CollectRegistrations(combined, wallet, carried.walletRegistrations);
    if |registrations| > MAX_DISCOVERY_IDS {
      return Err("candidate_limit");
    }
    if checkpoint.None? && FromDeployment(chain) {
      ScanOverlooksNothing(chain, wallet, observedBlock);
    }
    return Ok(Checkpoint(observedBlock, ids, registrations, owners));
  }
}
