/**
 The request bridge of the sidecar: requests wait in a map under their id until a reply line, a failed write, a
 timeout or the closing of the bridge settles them. Every handler runs to completion; between two of them
 anything may happen in any order.
 */
module JsonlBridge {
  import opened Wrappers

  datatype Kind = InboundText | GroupText | GroupObservation | RejectOversized

  predicate IsGroup(k: Kind) { k.GroupText? || k.GroupObservation? }

  /** A line from the other side, as far as the bridge can tell them apart. */
  datatype Line =
    | Unreadable
    | Notice
    | Ignore(id: string)
    | Reply(id: string, text: string, oversized: bool)
    | Invalid(id: string)

  datatype Outcome = Ignored | Replied(text: string) | Rejected(reason: string)

  /** One promise: `serial` numbers the requests that were entered, `cause` is the id on the settling event. */
  datatype Settlement = Settlement(serial: nat, outcome: Outcome, cause: string)

  datatype Entry = Entry(id: string, kind: Kind, rejection: bool)

  datatype Frame = Frame(id: string, kind: Kind, rejection: bool)

  /**
   The bridge. `rejecting` is the flag of the code, with the request that holds it; `entries`, `settlements` and
   `frames` record what happened so far.
   */
  datatype State = State(
    pending: map<string, nat>,
    closed: bool,
    rejecting: Option<nat>,
    entries: seq<Entry>,
    settlements: seq<Settlement>,
    frames: seq<Frame>)

  datatype Event =
    | Request(kind: Kind, id: string)
    | LineReceived(line: Line)
    | WriteFailed(serial: nat)
    | TimedOut(serial: nat)
    | Released
    | Closed

  const FRESH := State(map[], false, None, [], [], [])

  predicate Waits(s: State, serial: nat) {
    serial < |s.entries| && s.entries[serial].id in s.pending && s.pending[s.entries[serial].id] == serial
  }

  function Enter(s: State, id: string, kind: Kind, rejection: bool): State {
    s.(pending := s.pending[id := |s.entries|],
       entries := s.entries + [Entry(id, kind, rejection)],
       frames := s.frames + [Frame(id, kind, rejection)])
  }

  function Settle(s: State, id: string, outcome: Outcome): State {
    if id in s.pending then
      s.(pending := s.pending - {id}, settlements := s.settlements + [Settlement(s.pending[id], outcome, id)])
    else s
  }

  /** `#request`, and for groups the check of `observeGroup` before it; an error leaves everything as it was. */
  function OnRequest(s: State, maxPending: nat, kind: Kind, id: string): State {
    if IsGroup(kind) && |s.pending| >= maxPending then s
    else if s.closed then s
    else if |s.pending| >= maxPending then
      if s.rejecting.Some? || id in s.pending then s
      else Enter(s, id, kind, true).(rejecting := Some(|s.entries|))
    else if id in s.pending then s
    else Enter(s, id, kind, false)
  }

  function OnLine(s: State, line: Line): State {
    match line
    case Unreadable => s
    case Notice => s
    case Ignore(id) => Settle(s, id, Ignored)
    case Reply(id, text, oversized) => Settle(s, id, if oversized then Rejected("oversized reply") else Replied(text))
    case Invalid(id) => Settle(s, id, Rejected("invalid response"))
  }

  /** The settlements of a closing, in the order the requests were entered. */
  function Closings(s: State, n: nat): seq<Settlement>
    requires n <= |s.entries|
  {
    if n == 0 then []
    else Closings(s, n - 1)
         + if Waits(s, n - 1) then [Settlement(n - 1, Rejected("closed"), s.entries[n - 1].id)] else []
  }

  function OnClose(s: State): State {
    if s.closed then s
    else s.(closed := true, pending := map[], settlements := s.settlements + Closings(s, |s.entries|))
  }

  function Next(s: State, maxPending: nat, e: Event): State {
    match e
    case Request(kind, id) => OnRequest(s, maxPending, kind, id)
    case LineReceived(line) => OnLine(s, line)
    case WriteFailed(serial) =>
      if serial < |s.entries| then Settle(s, s.entries[serial].id, Rejected("write failed")) else s
    case TimedOut(serial) => if Waits(s, serial) then Settle(s, s.entries[serial].id, Rejected("timeout")) else s
    case Released => if s.rejecting.Some? && !Waits(s, s.rejecting.value) then s.(rejecting := None) else s
    case Closed => OnClose(s)
  }

  function Run(maxPending: nat, events: seq<Event>): State {
    if events == [] then FRESH else Next(Run(maxPending, events[..|events| - 1]), maxPending, events[|events| - 1])
  }

  // ---------------------------------------------------------------- the invariant

  ghost predicate MapIsRight(s: State) {
    forall id :: id in s.pending ==> s.pending[id] < |s.entries| && s.entries[s.pending[id]].id == id
  }

  ghost predicate SettledOnce(s: State) {
    && (forall i :: 0 <= i < |s.settlements| ==>
          && s.settlements[i].serial < |s.entries| && !Waits(s, s.settlements[i].serial)
          && s.settlements[i].cause == s.entries[s.settlements[i].serial].id)
    && (forall i, j :: 0 <= i < j < |s.settlements| ==> s.settlements[i].serial != s.settlements[j].serial)
  }

  ghost predicate HasSettled(s: State, serial: nat) {
    exists i :: 0 <= i < |s.settlements| && s.settlements[i].serial == serial
  }

  /** Every request is waiting or settled. */
  ghost predicate NothingForgotten(s: State) {
    forall serial: nat :: serial < |s.entries| ==> Waits(s, serial) || HasSettled(s, serial)
  }

  ghost predicate RejectionSlot(s: State, maxPending: nat) {
    && (forall serial: nat :: Waits(s, serial) && s.entries[serial].rejection ==> s.rejecting == Some(serial))
    && (|s.pending| <= maxPending
        || (|s.pending| == maxPending + 1 && s.rejecting.Some? && Waits(s, s.rejecting.value)))
  }

  ghost predicate GroupsNeverReject(s: State) {
    forall i :: 0 <= i < |s.frames| ==> s.frames[i].rejection ==> !IsGroup(s.frames[i].kind)
  }

  ghost predicate Inv(s: State, maxPending: nat) {
    && MapIsRight(s) && SettledOnce(s) && NothingForgotten(s) && RejectionSlot(s, maxPending) && GroupsNeverReject(s)
    && (s.closed ==> s.pending == map[])
  }

  lemma EnteredWaits(s: State, id: string, kind: Kind, rejection: bool, serial: nat)
    requires MapIsRight(s) && id !in s.pending && serial <= |s.entries|
    ensures Waits(Enter(s, id, kind, rejection), serial) <==> serial == |s.entries| || Waits(s, serial)
  {
  }

  function Entered(s: State, id: string, kind: Kind, rejection: bool): State {
    var t := Enter(s, id, kind, rejection);
    if rejection then t.(rejecting := Some(|s.entries|)) else t
  }

  lemma EnterKeepsSlot(s: State, maxPending: nat, id: string, kind: Kind, rejection: bool)
    requires MapIsRight(s) && RejectionSlot(s, maxPending) && id !in s.pending
    requires if rejection then |s.pending| >= maxPending && s.rejecting.None? else |s.pending| < maxPending
    ensures RejectionSlot(Entered(s, id, kind, rejection), maxPending)
  {
    hide Waits, MapIsRight;
    var t := Entered(s, id, kind, rejection);
    forall serial: nat | Waits(t, serial)
      ensures serial < |t.entries| && (t.entries[serial].rejection ==> t.rejecting == Some(serial))
    {
      WaitsIsEntered(t, serial);
      EnteredWaits(s, id, kind, rejection, serial);
      SameWaits(Enter(s, id, kind, rejection), t, serial);
    }
    assert t.pending.Keys == s.pending.Keys + {id};
    EnteredWaits(s, id, kind, rejection, |s.entries|);
    SameWaits(Enter(s, id, kind, rejection), t, |s.entries|);
  }

  lemma EnterKeepsSettlements(s: State, id: string, kind: Kind, rejection: bool)
    requires MapIsRight(s) && SettledOnce(s) && NothingForgotten(s) && id !in s.pending
    ensures SettledOnce(Entered(s, id, kind, rejection)) && NothingForgotten(Entered(s, id, kind, rejection))
  {
    hide Waits, MapIsRight;
    var t := Entered(s, id, kind, rejection);
    forall serial: nat | serial < |t.entries|
      ensures Waits(t, serial) <==> serial == |s.entries| || Waits(s, serial)
      ensures Waits(t, serial) || HasSettled(t, serial)
    {
      EnteredWaits(s, id, kind, rejection, serial);
      SameWaits(Enter(s, id, kind, rejection), t, serial);
      if serial < |s.entries| && !Waits(s, serial) {
        assert HasSettled(s, serial);
      }
    }
  }

  lemma EnterKeepsInv(s: State, maxPending: nat, id: string, kind: Kind, rejection: bool)
    requires Inv(s, maxPending) && id !in s.pending && !s.closed
    requires if rejection then |s.pending| >= maxPending && s.rejecting.None? && !IsGroup(kind)
             else |s.pending| < maxPending
    ensures Inv(Entered(s, id, kind, rejection), maxPending)
  {
    hide Waits, RejectionSlot, SettledOnce, NothingForgotten;
    EnterKeepsSlot(s, maxPending, id, kind, rejection);
    EnterKeepsSettlements(s, id, kind, rejection);
  }

  lemma SameWaits(s: State, t: State, serial: nat)
    requires s.pending == t.pending && s.entries == t.entries
    ensures Waits(s, serial) <==> Waits(t, serial)
  {
  }

  lemma WaitsIsEntered(s: State, serial: nat)
    requires Waits(s, serial)
    ensures serial < |s.entries|
  {
  }

  lemma SettleKeepsInv(s: State, maxPending: nat, id: string, outcome: Outcome)
    requires Inv(s, maxPending)
    ensures Inv(Settle(s, id, outcome), maxPending)
  {
    if id in s.pending {
      var t, serial := Settle(s, id, outcome), s.pending[id];
      assert |t.pending| == |s.pending| - 1;
      forall r: nat | r < |t.entries|
        ensures Waits(t, r) || HasSettled(t, r)
      {
        if r == serial {
          assert t.settlements[|s.settlements|].serial == r;
        } else if !Waits(s, r) {
          var i :| 0 <= i < |s.settlements| && s.settlements[i].serial == r;
          assert t.settlements[i].serial == r;
        }
      }
    }
  }

  /** A list of settlements that covers exactly the waiting requests below `n`, each once. */
  ghost predicate Covers(s: State, c: seq<Settlement>, n: nat)
    requires n <= |s.entries|
  {
    && (forall i :: 0 <= i < |c| ==>
          && c[i].serial < n && Waits(s, c[i].serial) && c[i].cause == s.entries[c[i].serial].id)
    && (forall i, j :: 0 <= i < j < |c| ==> c[i].serial != c[j].serial)
    && (forall serial: nat :: serial < n && Waits(s, serial) ==> exists i :: 0 <= i < |c| && c[i].serial == serial)
  }

  lemma {:induction false} ClosingsCover(s: State, n: nat)
    requires n <= |s.entries|
    ensures Covers(s, Closings(s, n), n)
  {
    hide Covers, Waits;
    if n > 0 {
      ClosingsCover(s, n - 1);
      CoverOneMore(s, Closings(s, n - 1), n - 1);
    } else {
      CoverNone(s);
    }
  }

  lemma CoverNone(s: State)
    ensures Covers(s, [], 0)
  {
  }

  lemma CoverOneMore(s: State, c: seq<Settlement>, n: nat)
    requires n < |s.entries| && Covers(s, c, n)
    ensures Covers(s, c + if Waits(s, n) then [Settlement(n, Rejected("closed"), s.entries[n].id)] else [], n + 1)
  {
    hide Waits;
    if Waits(s, n) {
      var now := c + [Settlement(n, Rejected("closed"), s.entries[n].id)];
      forall serial: nat | serial < n + 1 && Waits(s, serial)
        ensures exists i :: 0 <= i < |now| && now[i].serial == serial
      {
        if serial < n {
          var i :| 0 <= i < |c| && c[i].serial == serial;
          assert now[i].serial == serial;
        } else {
          assert now[|c|].serial == serial;
        }
      }
    } else {
      assert c + [] == c;
    }
  }

  lemma CloseSettlesOnce(s: State)
    requires SettledOnce(s) && !s.closed
    ensures SettledOnce(OnClose(s))
  {
    hide Closings;
    var t, c := OnClose(s), Closings(s, |s.entries|);
    ClosingsCover(s, |s.entries|);
    var n := |s.settlements|;
    forall i | 0 <= i < |t.settlements|
      ensures t.settlements[i].serial < |t.entries| && !Waits(t, t.settlements[i].serial)
      ensures t.settlements[i].cause == t.entries[t.settlements[i].serial].id
    {
      if i >= n {
        assert t.settlements[i] == c[i - n];
      } else {
        assert t.settlements[i] == s.settlements[i];
      }
    }
    forall i, j | 0 <= i < j < |t.settlements|
      ensures t.settlements[i].serial != t.settlements[j].serial
    {
      if j >= n {
        assert t.settlements[j] == c[j - n];
        if i >= n {
          assert t.settlements[i] == c[i - n];
        } else {
          assert t.settlements[i] == s.settlements[i] && !Waits(s, s.settlements[i].serial);
        }
      } else {
        assert t.settlements[i] == s.settlements[i] && t.settlements[j] == s.settlements[j];
      }
    }
  }

  lemma CloseForgetsNothing(s: State)
    requires NothingForgotten(s) && !s.closed
    ensures NothingForgotten(OnClose(s))
  {
    hide Waits, Closings;
    var t, c := OnClose(s), Closings(s, |s.entries|);
    ClosingsCover(s, |s.entries|);
    forall serial: nat | serial < |t.entries|
      ensures HasSettled(t, serial)
    {
      if Waits(s, serial) {
        var i :| 0 <= i < |c| && c[i].serial == serial;
        assert t.settlements[|s.settlements| + i].serial == serial;
      } else {
        assert HasSettled(s, serial);
        var i :| 0 <= i < |s.settlements| && s.settlements[i].serial == serial;
        assert t.settlements[i].serial == serial;
      }
    }
  }

  lemma CloseKeepsInv(s: State, maxPending: nat)
    requires Inv(s, maxPending) && !s.closed
    ensures Inv(OnClose(s), maxPending)
  {
    hide SettledOnce, NothingForgotten, Closings;
    CloseSettlesOnce(s);
    CloseForgetsNothing(s);
  }

  lemma LineKeepsInv(s: State, maxPending: nat, line: Line)
    requires Inv(s, maxPending)
    ensures Inv(OnLine(s, line), maxPending)
  {
    hide Inv, Settle;
    match line
    case Unreadable =>
    case Notice =>
    case Ignore(id) => SettleKeepsInv(s, maxPending, id, Ignored);
    case Reply(id, text, oversized) =>
      SettleKeepsInv(s, maxPending, id, if oversized then Rejected("oversized reply") else Replied(text));
    case Invalid(id) => SettleKeepsInv(s, maxPending, id, Rejected("invalid response"));
  }

  lemma NextKeepsInv(s: State, maxPending: nat, e: Event)
    requires Inv(s, maxPending)
    ensures Inv(Next(s, maxPending, e), maxPending)
  {
    hide Inv, Settle, Enter, OnClose;
    match e
    case Request(kind, id) => RequestKeepsInv(s, maxPending, kind, id);
    case LineReceived(line) => LineKeepsInv(s, maxPending, line);
    case WriteFailed(serial) =>
      if serial < |s.entries| {
        SettleKeepsInv(s, maxPending, s.entries[serial].id, Rejected("write failed"));
      }
    case TimedOut(serial) =>
      if Waits(s, serial) {
        SettleKeepsInv(s, maxPending, s.entries[serial].id, Rejected("timeout"));
      }
    case Released => ReleaseKeepsInv(s, maxPending);
    case Closed =>
      if s.closed {
        ClosedStays(s);
      } else {
        CloseKeepsInv(s, maxPending);
      }
  }

  lemma ClosedStays(s: State)
    requires s.closed
    ensures OnClose(s) == s
  {
  }

  lemma RequestKeepsInv(s: State, maxPending: nat, kind: Kind, id: string)
    requires Inv(s, maxPending)
    ensures Inv(OnRequest(s, maxPending, kind, id), maxPending)
  {
    hide Inv, Enter;
    if !(IsGroup(kind) && |s.pending| >= maxPending) && !s.closed && id !in s.pending {
      if |s.pending| < maxPending {
        EnterKeepsInv(s, maxPending, id, kind, false);
      } else if s.rejecting.None? {
        EnterKeepsInv(s, maxPending, id, kind, true);
      }
    }
  }

  lemma ReleaseKeepsInv(s: State, maxPending: nat)
    requires Inv(s, maxPending)
    ensures Inv(Next(s, maxPending, Released), maxPending)
  {
    hide Waits;
    var t := Next(s, maxPending, Released);
    forall serial: nat
      ensures Waits(t, serial) <==> Waits(s, serial)
    {
      SameWaits(s, t, serial);
    }
    forall serial: nat | serial < |t.entries|
      ensures Waits(t, serial) || HasSettled(t, serial)
    {
      if !Waits(s, serial) {
        assert HasSettled(s, serial);
      }
    }
  }

  lemma {:induction false} RunKeepsInv(maxPending: nat, events: seq<Event>)
    ensures Inv(Run(maxPending, events), maxPending)
  {
    hide Next, Inv;
    if events == [] {
      FreshIsInv(maxPending);
    } else {
      RunKeepsInv(maxPending, events[..|events| - 1]);
      NextKeepsInv(Run(maxPending, events[..|events| - 1]), maxPending, events[|events| - 1]);
    }
  }

  lemma FreshIsInv(maxPending: nat)
    ensures Inv(FRESH, maxPending)
  {
  }

  // ---------------------------------------------------------------- what every run promises

  /** No request is settled twice, and only by an event that carries its own id. */
  lemma SettledAtMostOnce(maxPending: nat, events: seq<Event>, i: nat, j: nat)
    requires i < |Run(maxPending, events).settlements| && j < |Run(maxPending, events).settlements|
    ensures var s := Run(maxPending, events);
      && s.settlements[i].serial < |s.entries| && s.settlements[i].cause == s.entries[s.settlements[i].serial].id
      && (s.settlements[i].serial == s.settlements[j].serial ==> i == j)
  {
    RunKeepsInv(maxPending, events);
  }

  /** A request is settled exactly when it no longer waits; a closed bridge has settled them all. */
  lemma WaitsOrSettled(maxPending: nat, events: seq<Event>, serial: nat)
    requires serial < |Run(maxPending, events).entries|
    ensures var s := Run(maxPending, events);
      && (Waits(s, serial) <==> !HasSettled(s, serial))
      && (s.closed ==> s.pending == map[] && HasSettled(s, serial))
  {
    RunKeepsInv(maxPending, events);
  }

  /** At most one request beyond the limit waits, and only while it holds the rejection slot. */
  lemma {:induction false} OneExtraForRejection(maxPending: nat, events: seq<Event>)
    ensures var s := Run(maxPending, events);
      && |s.pending| <= maxPending + 1
      && (|s.pending| == maxPending + 1 ==>
            s.rejecting.Some? && Waits(s, s.rejecting.value) && s.rejecting.value < |s.entries|)
  {
    RunKeepsInv(maxPending, events);
  }

  /** Group traffic is never turned into a rejection frame. */
  lemma {:induction false} NoGroupRejection(maxPending: nat, events: seq<Event>, i: nat)
    requires i < |Run(maxPending, events).frames|
    requires Run(maxPending, events).frames[i].kind in {GroupText, GroupObservation}
    ensures !Run(maxPending, events).frames[i].rejection
  {
    RunKeepsInv(maxPending, events);
  }

  // ---------------------------------------------------------------- nothing without its cause

  /** The event that brings this settlement about. */
  predicate Causes(e: Event, x: Settlement) {
    match x.outcome
    case Ignored => e == LineReceived(Ignore(x.cause))
    case Replied(text) => e == LineReceived(Reply(x.cause, text, false))
    case Rejected(_) =>
      || e == Closed || e == TimedOut(x.serial) || e.WriteFailed? || e == LineReceived(Invalid(x.cause))
      || (e.LineReceived? && e.line.Reply? && e.line.id == x.cause && e.line.oversized)
  }

  ghost predicate Caused(events: seq<Event>, x: Settlement) {
    exists k :: 0 <= k < |events| && Causes(events[k], x)
  }

  ghost predicate Requested(events: seq<Event>, x: Entry) {
    exists k :: 0 <= k < |events| && events[k] == Request(x.kind, x.id)
  }

  /** One event settles only what it causes and enters only what it requests, each with one frame of its own. */
  ghost predicate HasCause(s: State, e: Event, t: State) {
    && s.settlements <= t.settlements && s.entries <= t.entries && s.frames <= t.frames
    && (forall i :: |s.settlements| <= i < |t.settlements| ==> Causes(e, t.settlements[i]))
    && (forall i :: |s.entries| <= i < |t.entries| ==> e == Request(t.entries[i].kind, t.entries[i].id))
    && |t.frames| - |s.frames| == |t.entries| - |s.entries|
    && (forall i :: |s.entries| <= i < |t.entries| && |s.frames| == |s.entries| ==>
          t.frames[i] == Frame(t.entries[i].id, t.entries[i].kind, t.entries[i].rejection))
  }

  lemma SettlingHasCause(s: State, e: Event, id: string, outcome: Outcome)
    requires id in s.pending ==> Causes(e, Settlement(s.pending[id], outcome, id))
    ensures HasCause(s, e, Settle(s, id, outcome))
  {
    hide Causes;
  }

  lemma RequestHasCause(s: State, maxPending: nat, kind: Kind, id: string)
    ensures HasCause(s, Request(kind, id), OnRequest(s, maxPending, kind, id))
  {
  }

  lemma CloseHasCause(s: State)
    ensures HasCause(s, Closed, OnClose(s))
  {
    hide Closings;
    ClosingsReject(s, |s.entries|);
  }

  lemma LineHasCause(s: State, line: Line)
    ensures HasCause(s, LineReceived(line), OnLine(s, line))
  {
    hide HasCause, Settle;
    NothingHasCause(s, LineReceived(line));
    match line
    case Unreadable =>
    case Notice =>
    case Ignore(id) => SettlingHasCause(s, LineReceived(line), id, Ignored);
    case Reply(id, text, oversized) =>
      SettlingHasCause(s, LineReceived(line), id, if oversized then Rejected("oversized reply") else Replied(text));
    case Invalid(id) => SettlingHasCause(s, LineReceived(line), id, Rejected("invalid response"));
  }

  lemma NothingHasCause(s: State, e: Event)
    ensures HasCause(s, e, s)
  {
  }

  lemma StepHasCause(s: State, maxPending: nat, e: Event)
    ensures HasCause(s, e, Next(s, maxPending, e))
  {
    match e
    case Request(kind, id) => RequestHasCause(s, maxPending, kind, id);
    case LineReceived(line) => LineHasCause(s, line);
    case WriteFailed(serial) =>
      if serial < |s.entries| {
        SettlingHasCause(s, e, s.entries[serial].id, Rejected("write failed"));
      }
    case TimedOut(serial) =>
      if Waits(s, serial) {
        SettlingHasCause(s, e, s.entries[serial].id, Rejected("timeout"));
      }
    case Released => NothingHasCause(s, e);
    case Closed => CloseHasCause(s);
  }

  lemma {:induction false} ClosingsReject(s: State, n: nat)
    requires n <= |s.entries|
    ensures forall i :: 0 <= i < |Closings(s, n)| ==> Closings(s, n)[i].outcome.Rejected?
  {
    if n > 0 {
      ClosingsReject(s, n - 1);
    }
  }

  /**
   Over every run: a request is only settled as ignored or replied by a line that says exactly this under its own id,
   and only rejected by a bad line, a failed write, its timer or the closing; every request waiting or settled was
   made, and one frame was written for each, in this order.
   */
  lemma {:induction false} EverythingHasItsCause(maxPending: nat, events: seq<Event>)
    ensures var s := Run(maxPending, events);
      && (forall i :: 0 <= i < |s.settlements| ==> Caused(events, s.settlements[i]))
      && (forall i :: 0 <= i < |s.entries| ==> Requested(events, s.entries[i]))
      && |s.frames| == |s.entries|
      && (forall i :: 0 <= i < |s.entries| ==>
            s.frames[i] == Frame(s.entries[i].id, s.entries[i].kind, s.entries[i].rejection))
  {
    if events != [] {
      hide Next, Causes;
      var n := |events| - 1;
      var s, t := Run(maxPending, events[..n]), Run(maxPending, events);
      EverythingHasItsCause(maxPending, events[..n]);
      StepHasCause(s, maxPending, events[n]);
      forall i | 0 <= i < |t.settlements|
        ensures Caused(events, t.settlements[i])
      {
        if i < |s.settlements| {
          var k :| 0 <= k < n && Causes(events[..n][k], s.settlements[i]);
          assert events[k] == events[..n][k] && s.settlements[i] == t.settlements[i];
        } else {
          assert Causes(events[n], t.settlements[i]);
        }
      }
      forall i | 0 <= i < |t.entries|
        ensures Requested(events, t.entries[i])
      {
        if i < |s.entries| {
          var k :| 0 <= k < n && events[..n][k] == Request(s.entries[i].kind, s.entries[i].id);
          assert events[k] == events[..n][k] && s.entries[i] == t.entries[i];
        } else {
          assert events[n] == Request(t.entries[i].kind, t.entries[i].id);
        }
      }
    }
  }

  /** A line for a waiting request settles this one at once, with what the line says. */
  lemma LinesSettle(s: State, maxPending: nat, line: Line, id: string)
    requires id in s.pending
    requires line == Ignore(id) || line == Invalid(id) || (line.Reply? && line.id == id)
    ensures var t := Next(s, maxPending, LineReceived(line));
      && id !in t.pending && |t.settlements| == |s.settlements| + 1
      && var x := t.settlements[|s.settlements|];
         && x.serial == s.pending[id] && x.cause == id
         && (line.Ignore? ==> x.outcome == Ignored)
         && (line.Reply? && !line.oversized ==> x.outcome == Replied(line.text))
         && (line.Invalid? || (line.Reply? && line.oversized) ==> x.outcome.Rejected?)
  {
  }

  // ---------------------------------------------------------------- the bridge as an object

  class Bridge {
    const maxPending: nat
    var pending: map<string, nat>
    var closed: bool
    var rejecting: bool

    /** Promises and output so far: who holds the rejection flag, what was entered, settled and written. */
    ghost var holder: Option<nat>
    ghost var settlements: seq<Settlement>
    var entries: seq<Entry>
    var frames: seq<Frame>

    ghost function Value(): State
      reads this
    {
      State(pending, closed, holder, entries, settlements, frames)
    }

    ghost predicate Valid()
      reads this
    {
      Inv(Value(), maxPending) && (rejecting <==> holder.Some?)
    }

    constructor (maxPending: nat)
      requires maxPending > 0
      ensures Valid() && Value() == FRESH && this.maxPending == maxPending
    {
      this.maxPending := maxPending;
      pending, closed, rejecting := map[], false, false;
      holder, settlements, entries, frames := None, [], [], [];
      FreshIsInv(maxPending);
    }

    /** `#request`: `None` is a thrown error. A full bridge still takes one request, as a rejection. */
    method Send(kind: Kind, id: string) returns (serial: Option<nat>)
      requires Valid() && (IsGroup(kind) ==> |pending| < maxPending)
      modifies this
      ensures Valid() && Value() == Next(old(Value()), maxPending, Request(kind, id))
      ensures serial.Some? ==> serial.value == |old(entries)| && Waits(Value(), serial.value)
      ensures serial.None? <==> Value() == old(Value())
      ensures serial.Some? <==>
              !old(closed) && id !in old(pending) && (|old(pending)| < maxPending || !old(rejecting))
      ensures serial.Some? ==>
                && entries == old(entries) + [Entry(id, kind, |old(pending)| >= maxPending)]
                && frames == old(frames) + [Frame(id, kind, |old(pending)| >= maxPending)]
    {
      hide Inv;
      ghost var s := Value();
      NextKeepsInv(s, maxPending, Request(kind, id));
      if closed {
        return None;
      }
      var rejection := |pending| >= maxPending;
      if rejection && rejecting {
        return None;
      }
      if id in pending {
        return None;
      }
      if rejection {
        rejecting, holder := true, Some(|entries|);
      }
      serial := Some(|entries|);
      pending := pending[id := |entries|];
      entries, frames := entries + [Entry(id, kind, rejection)], frames + [Frame(id, kind, rejection)];
    }

    /** Group overload is answered locally; it never reaches the rejection path. */
    method ObserveGroup(replay: bool, id: string) returns (serial: Option<nat>)
      requires Valid()
      modifies this
      ensures Valid()
      ensures Value() == Next(old(Value()), maxPending, Request(if replay then GroupObservation else GroupText, id))
      ensures |old(pending)| >= maxPending ==> Value() == old(Value())
    {
      if |pending| >= maxPending {
        return None;
      }
      serial := Send(if replay then GroupObservation else GroupText, id);
    }

    method SettleById(id: string, outcome: Outcome)
      requires Valid()
      modifies this`pending, this`settlements
      ensures Valid() && Value() == Settle(old(Value()), id, outcome)
    {
      SettleKeepsInv(Value(), maxPending, id, outcome);
      if id in pending {
        settlements := settlements + [Settlement(pending[id], outcome, id)];
        pending := pending - {id};
      }
    }

    method HandleLine(line: Line)
      requires Valid()
      modifies this`pending, this`settlements
      ensures Valid() && Value() == Next(old(Value()), maxPending, LineReceived(line))
    {
      hide Inv, Settle;
      match line
      case Unreadable =>
      case Notice =>
      case Ignore(id) => SettleById(id, Ignored);
      case Reply(id, text, oversized) =>
        if oversized {
          SettleById(id, Rejected("oversized reply"));
        } else {
          SettleById(id, Replied(text));
        }
      case Invalid(id) => SettleById(id, Rejected("invalid response"));
    }

    /** The write of a frame failed: whoever waits under its id by now is rejected. */
    method FailWrite(serial: nat)
      requires Valid() && serial < |entries|
      modifies this`pending, this`settlements
      ensures Valid() && Value() == Next(old(Value()), maxPending, WriteFailed(serial))
    {
      hide Inv, Settle;
      SettleById(entries[serial].id, Rejected("write failed"));
    }

    /** The timer of a request fires; it was cleared if the request no longer waits. */
    method TimeOut(serial: nat)
      requires Valid()
      modifies this`pending, this`settlements
      ensures Valid() && Value() == Next(old(Value()), maxPending, TimedOut(serial)) && !Waits(Value(), serial)
    {
      hide Inv;
      if serial < |entries| && entries[serial].id in pending && pending[entries[serial].id] == serial {
        SettleById(entries[serial].id, Rejected("timeout"));
      }
    }

    /** The rejected request was settled, so the next overload may be rejected again. */
    method Release()
      requires Valid() && holder.Some? && !Waits(Value(), holder.value)
      modifies this`rejecting, this`holder
      ensures Valid() && !rejecting && Value() == Next(old(Value()), maxPending, Released)
    {
      hide Inv;
      NextKeepsInv(Value(), maxPending, Released);
      rejecting, holder := false, None;
    }

    method Close()
      requires Valid()
      modifies this
      ensures Valid() && closed && pending == map[] && Value() == Next(old(Value()), maxPending, Closed)
    {
      ghost var s := Value();
      NextKeepsInv(s, maxPending, Closed);
      if closed {
        return;
      }
      settlements := settlements + Closings(s, |entries|);
      closed, pending := true, map[];
    }
  }
}
