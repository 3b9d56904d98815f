/**
 The admission boundary for unauthenticated liveness probes. Four collections, pruned by time, must
 stay views of one history of admissions; everything the gate promises follows from that.

 The clock is assumed not to run backwards. Agent ids are decimal texts; their 256-bit bound is not used.
 */
module LivenessGate {
  import opened Integers
  import opened Wrappers
  import opened Text

  const LIVENESS_WINDOW_MS: nat := 60_000
  const LIVENESS_PER_SENDER_PER_WINDOW: nat := 8
  const LIVENESS_GLOBAL_PER_WINDOW: nat := 256
  const MAX_LIVENESS_SENDERS: nat := 1_024
  const MAX_LIVENESS_REPLAYS: nat := 4_096
  const MAX_LIVENESS_GRANTS: nat := 2_048
  const NS_PER_MS: nat := 1_000_000

  datatype Query = Query(requestId: string, expiresAtNs: nat, targetAgentId: string)

  datatype Grant = Grant(
    senderInboxId: string,
    senderAddress: string,
    livenessRequestId: string,
    tentacleAgentId: string,
    expiresAtMs: nat)

  /** One admitted query, as the history records it. */
  datatype Admission = Admission(sender: string, requestId: string, expiresAtNs: nat, time: nat)

  /** Inbox ids: 64 lower-case hexadecimal characters. */
  predicate IsCanonicalId(id: string) { |id| == 64 && All(id, IsLowerHex) }

  predicate IsCanonicalAgentId(id: string) {
    id != "" && All(id, IsDigit) && (id[0] == '0' ==> |id| == 1)
  }

  function Key(sender: string, requestId: string): string { sender + ":" + requestId }

  function KeyOf(a: Admission): string { Key(a.sender, a.requestId) }

  /** The colon cannot be confused: sender ids have a fixed length. */
  lemma KeyIsInjective(sender: string, requestId: string, sender': string, requestId': string)
    requires IsCanonicalId(sender) && IsCanonicalId(sender')
    requires Key(sender, requestId) == Key(sender', requestId')
    ensures sender == sender' && requestId == requestId'
  {
    var k, k' := Key(sender, requestId), Key(sender', requestId');
    assert sender == k[..64] && sender' == k'[..64];
    assert requestId == k[65..] && requestId' == k'[65..];
  }

  // ---------------------------------------------------------------- views of a history

  function Times(h: seq<Admission>): (r: seq<nat>) {
    if h == [] then [] else [h[0].time] + Times(h[1..])
  }

  function BySender(h: seq<Admission>, sender: string): (r: seq<Admission>) {
    if h == [] then []
    else (if h[0].sender == sender then [h[0]] else []) + BySender(h[1..], sender)
  }

  function Keys(h: seq<Admission>): (r: set<string>) {
    if h == [] then {} else {KeyOf(h[0])} + Keys(h[1..])
  }

  /** What is left of an ordered history once everything up to `cutoff` is forgotten. */
  function Since(h: seq<Admission>, cutoff: int): (r: seq<Admission>) {
    if h != [] && h[0].time <= cutoff then Since(h[1..], cutoff) else h
  }

  lemma {:induction false} SinceIsSuffix(h: seq<Admission>, cutoff: int) returns (d: nat)
    ensures d <= |h| && Since(h, cutoff) == h[d..]
    ensures d < |h| ==> h[d].time > cutoff
    ensures d > 0 ==> h[d - 1].time <= cutoff
  {
    d := 0;
    if h != [] && h[0].time <= cutoff {
      var e := SinceIsSuffix(h[1..], cutoff);
      d := e + 1;
      assert h[d..] == h[1..][e..];
    }
  }

  /** `while (list[0] <= cutoff) list.shift()`. */
  function DropOld(times: seq<nat>, cutoff: int): (r: seq<nat>) {
    if times != [] && times[0] <= cutoff then DropOld(times[1..], cutoff) else times
  }

  /** Times never decrease along the history, and none is later than `now`. */
  ghost predicate Ordered(h: seq<Admission>, now: nat) {
    && (forall i, j :: 0 <= i <= j < |h| ==> h[i].time <= h[j].time)
    && (h != [] ==> h[|h| - 1].time <= now)
  }

  /** Admissions `limit` places apart are at least a window apart. */
  ghost predicate Spaced(h: seq<Admission>, limit: nat) {
    forall i, j :: 0 <= i && i + limit == j && j < |h| ==> h[i].time + LIVENESS_WINDOW_MS <= h[j].time
  }

  /** So no stretch of more than `limit` admissions fits in sixty seconds. */
  lemma WindowsAreBounded(h: seq<Admission>, limit: nat, now: nat, i: nat, j: nat)
    requires Spaced(h, limit) && Ordered(h, now)
    requires i < j < |h| && j - i >= limit
    ensures h[i].time + LIVENESS_WINDOW_MS <= h[j].time
  {
    var k := i + limit;
    assert h[i].time + LIVENESS_WINDOW_MS <= h[k].time;
    assert h[k].time <= h[j].time;
  }

  // ---------------------------------------------------------------- the gate as a value

  datatype Gate = Gate(
    globalAdmissions: seq<nat>,
    senderAdmissions: map<string, seq<nat>>,
    replays: map<string, nat>,
    grants: map<string, Grant>)

  function PrunedSenders(senders: map<string, seq<nat>>, cutoff: int): (r: map<string, seq<nat>>) {
    map s | s in senders && DropOld(senders[s], cutoff) != [] :: DropOld(senders[s], cutoff)
  }

  function PrunedReplays(replays: map<string, nat>, now: nat): (r: map<string, nat>) {
    map k | k in replays && replays[k] > now :: replays[k]
  }

  function PrunedGrants(grants: map<string, Grant>, now: nat): (r: map<string, Grant>) {
    map k | k in grants && grants[k].expiresAtMs > now :: grants[k]
  }

  function Pruned(g: Gate, now: nat): Gate {
    var cutoff := now - LIVENESS_WINDOW_MS;
    Gate(DropOld(g.globalAdmissions, cutoff), PrunedSenders(g.senderAdmissions, cutoff),
         PrunedReplays(g.replays, now), PrunedGrants(g.grants, now))
  }

  ghost predicate DistinctKeys(h: seq<Admission>) {
    forall i, j :: 0 <= i < j < |h| ==> KeyOf(h[i]) != KeyOf(h[j])
  }

  ghost predicate SendersShow(senders: map<string, seq<nat>>, live: seq<Admission>) {
    && (forall s :: s in senders ==> senders[s] == Times(BySender(live, s)))
    && (forall s :: BySender(live, s) != [] ==> s in senders)
  }

  ghost predicate ReplaysShow(replays: map<string, nat>, live: seq<Admission>) {
    && replays.Keys == Keys(live)
    && (forall a :: a in live ==> KeyOf(a) in replays && replays[KeyOf(a)] == a.time + LIVENESS_WINDOW_MS)
    && DistinctKeys(live)
  }

  /** The three admission collections show exactly the live part of the history. */
  ghost predicate Views(g: Gate, live: seq<Admission>) {
    && g.globalAdmissions == Times(live)
    && SendersShow(g.senderAdmissions, live)
    && ReplaysShow(g.replays, live)
  }

  /** A grant answers an admission that was live when the grant was issued. */
  ghost predicate GrantAnswers(h: seq<Admission>, k: string, grant: Grant, a: Admission) {
    && a in h && KeyOf(a) == k
    && grant.senderInboxId == a.sender && grant.livenessRequestId == a.requestId
    && grant.expiresAtMs < a.time + 2 * LIVENESS_WINDOW_MS
  }

  ghost predicate GrantsAnswer(h: seq<Admission>, grants: map<string, Grant>) {
    forall k :: k in grants ==> exists a :: GrantAnswers(h, k, grants[k], a)
  }

  predicate SameQuery(a: Admission, b: Admission) {
    a.sender == b.sender && a.requestId == b.requestId && a.expiresAtNs == b.expiresAtNs
  }

  predicate Plausible(a: Admission) {
    IsCanonicalId(a.sender) && a.expiresAtNs <= (a.time + LIVENESS_WINDOW_MS) * NS_PER_MS
  }

  /** What the history itself promises: both rates are limited, and no query is ever admitted twice. */
  ghost predicate History(h: seq<Admission>, now: nat) {
    && Ordered(h, now)
    && Spaced(h, LIVENESS_GLOBAL_PER_WINDOW)
    && (forall s :: Spaced(BySender(h, s), LIVENESS_PER_SENDER_PER_WINDOW))
    && (forall a :: a in h ==> Plausible(a))
    && (forall i, j :: 0 <= i < j < |h| ==> !SameQuery(h[i], h[j]))
  }

  // ---------------------------------------------------------------- the views under one more admission

  lemma {:induction false} TimesSize(h: seq<Admission>)
    ensures |Times(h)| == |h|
  {
    if h != [] {
      TimesSize(h[1..]);
    }
  }

  lemma {:induction false} TimesAppend(h: seq<Admission>, a: Admission)
    ensures Times(h + [a]) == Times(h) + [a.time]
  {
    if h != [] {
      TimesAppend(h[1..], a);
      assert (h + [a])[1..] == h[1..] + [a];
    } else {
      assert Times([a]) == [a.time] + Times([a][1..]);
    }
  }

  lemma {:induction false} BySenderAppend(h: seq<Admission>, a: Admission, s: string)
    ensures BySender(h + [a], s) == BySender(h, s) + if a.sender == s then [a] else []
  {
    if h != [] {
      BySenderAppend(h[1..], a, s);
      assert (h + [a])[1..] == h[1..] + [a];
    } else {
      assert [a][1..] == [];
      assert h + [a] == [a];
    }
  }

  lemma {:induction false} KeysAppend(h: seq<Admission>, a: Admission)
    ensures Keys(h + [a]) == Keys(h) + {KeyOf(a)}
  {
    if h != [] {
      KeysAppend(h[1..], a);
      assert (h + [a])[1..] == h[1..] + [a];
    } else {
      assert [a][1..] == [];
      assert h + [a] == [a];
    }
  }

  lemma {:induction false} KeyMember(h: seq<Admission>, a: Admission)
    requires a in h
    ensures KeyOf(a) in Keys(h)
  {
    if h[0] != a {
      assert a in h[1..];
      KeyMember(h[1..], a);
    }
  }

  lemma {:induction false} KeyWitness(h: seq<Admission>, k: string) returns (i: nat)
    requires k in Keys(h)
    ensures i < |h| && KeyOf(h[i]) == k
  {
    if KeyOf(h[0]) == k {
      i := 0;
    } else {
      var j := KeyWitness(h[1..], k);
      i := j + 1;
    }
  }

  lemma {:induction false} BySenderMembers(h: seq<Admission>, s: string, a: Admission)
    ensures a in BySender(h, s) <==> a in h && a.sender == s
  {
    if h != [] {
      BySenderMembers(h[1..], s, a);
      assert a in h <==> a == h[0] || a in h[1..];
    }
  }

  // ---------------------------------------------------------------- pruning follows the history

  lemma {:induction false} DropOldOfTimes(h: seq<Admission>, cutoff: int)
    ensures DropOld(Times(h), cutoff) == Times(Since(h, cutoff))
  {
    if h != [] && h[0].time <= cutoff {
      DropOldOfTimes(h[1..], cutoff);
    }
  }

  lemma {:induction false} SinceTwice(h: seq<Admission>, c: int, d: int)
    requires c <= d
    ensures Since(Since(h, c), d) == Since(h, d)
  {
    if h != [] && h[0].time <= c {
      SinceTwice(h[1..], c, d);
    }
  }

  lemma OrderedTail(h: seq<Admission>, now: nat)
    requires Ordered(h, now) && h != []
    ensures Ordered(h[1..], now) && h[0].time <= now
    ensures forall a :: a in h ==> h[0].time <= a.time
  {
  }

  lemma BySenderStep(h: seq<Admission>, s: string)
    requires h != []
    ensures h[0].sender == s ==> BySender(h, s) != [] && BySender(h, s)[0] == h[0]
    ensures h[0].sender == s ==> BySender(h, s)[1..] == BySender(h[1..], s)
    ensures h[0].sender != s ==> BySender(h, s) == BySender(h[1..], s)
  {
  }

  lemma OrderedPrepend(h: seq<Admission>, now: nat)
    requires h != [] && Ordered(h[1..], now) && h[0].time <= now
    requires |h| > 1 ==> h[0].time <= h[1].time
    ensures Ordered(h, now)
  {
    forall i, j | 0 <= i <= j < |h|
      ensures h[i].time <= h[j].time
    {
      if i > 0 {
        assert h[1..][i - 1].time <= h[1..][j - 1].time;
      } else if j > 0 {
        assert h[1..][0].time <= h[1..][j - 1].time;
      }
    }
    assert |h| > 1 ==> h[|h| - 1] == h[1..][|h| - 2];
  }

  lemma {:induction false} BySenderOrdered(h: seq<Admission>, s: string, now: nat)
    requires Ordered(h, now)
    ensures Ordered(BySender(h, s), now)
  {
    if h != [] {
      hide BySender, Ordered;
      OrderedTail(h, now);
      BySenderOrdered(h[1..], s, now);
      BySenderStep(h, s);
      var b := BySender(h, s);
      if h[0].sender == s {
        if |b| > 1 {
          BySenderMembers(h[1..], s, b[1..][0]);
        }
        OrderedPrepend(b, now);
      }
    }
  }

  lemma SinceStep(h: seq<Admission>, cutoff: int)
    requires h != []
    ensures Since(h, cutoff) == if h[0].time <= cutoff then Since(h[1..], cutoff) else h
  {
  }

  lemma {:induction false} SinceBySender(h: seq<Admission>, s: string, cutoff: int, now: nat)
    requires Ordered(h, now)
    ensures BySender(Since(h, cutoff), s) == Since(BySender(h, s), cutoff)
  {
    if h == [] {
    } else {
      hide *;
      OrderedTail(h, now);
      SinceStep(h, cutoff);
      var b := BySender(h, s);
      if h[0].time <= cutoff {
        BySenderStep(h, s);
        SinceBySender(h[1..], s, cutoff, now);
        if h[0].sender == s {
          SinceStep(b, cutoff);
        }
      } else if b != [] {
        BySenderMembers(h, s, b[0]);
        SinceStep(b, cutoff);
      } else {
        SinceOfNone(cutoff);
      }
    }
  }

  lemma SinceOfNone(cutoff: int)
    ensures Since([], cutoff) == []
  {
  }

  /** An ordered history keeps after pruning exactly its members later than the cutoff. */
  lemma SinceMembers(h: seq<Admission>, cutoff: int, now: nat, a: Admission)
    requires Ordered(h, now)
    ensures a in Since(h, cutoff) <==> a in h && a.time > cutoff
  {
    hide Since;
    var d := SinceIsSuffix(h, cutoff);
    if a in h[d..] {
      var j :| d <= j < |h| && h[j] == a;
      assert h[d].time <= h[j].time;
    }
    if a in h && a.time > cutoff {
      var i :| 0 <= i < |h| && h[i] == a;
      assert forall j :: 0 <= j < d ==> h[j].time <= h[d - 1].time;
      assert h[d..][i - d] == a;
    }
  }

  lemma PruneSenders(senders: map<string, seq<nat>>, live: seq<Admission>, cutoff: int, now: nat)
    requires SendersShow(senders, live) && Ordered(live, now)
    ensures SendersShow(PrunedSenders(senders, cutoff), Since(live, cutoff))
    ensures forall s :: s in PrunedSenders(senders, cutoff) ==> BySender(Since(live, cutoff), s) != []
  {
    var rest := Since(live, cutoff);
    forall s
      ensures s in senders ==> DropOld(senders[s], cutoff) == Times(BySender(rest, s))
      ensures BySender(rest, s) != [] ==> BySender(live, s) != []
      ensures Times(BySender(rest, s)) != [] <==> BySender(rest, s) != []
    {
      DropOldOfTimes(BySender(live, s), cutoff);
      SinceBySender(live, s, cutoff, now);
      TimesSize(BySender(rest, s));
    }
  }

  lemma DistinctSuffix(h: seq<Admission>, d: nat)
    requires DistinctKeys(h) && d <= |h|
    ensures DistinctKeys(h[d..])
  {
  }

  lemma PruneReplays(replays: map<string, nat>, live: seq<Admission>, now: nat)
    requires ReplaysShow(replays, live) && Ordered(live, now)
    ensures ReplaysShow(PrunedReplays(replays, now), Since(live, now - LIVENESS_WINDOW_MS))
  {
    var cutoff := now - LIVENESS_WINDOW_MS;
    hide Since, Keys, Ordered, DistinctKeys;
    var rest, left := Since(live, cutoff), PrunedReplays(replays, now);
    assert DistinctKeys(rest) by {
      var d := SinceIsSuffix(live, cutoff);
      DistinctSuffix(live, d);
    }
    forall a | a in rest
      ensures KeyOf(a) in left && left[KeyOf(a)] == a.time + LIVENESS_WINDOW_MS
    {
      SinceMembers(live, cutoff, now, a);
    }
    forall k | k in left
      ensures k in Keys(rest)
    {
      var i := KeyWitness(live, k);
      SinceMembers(live, cutoff, now, live[i]);
      KeyMember(rest, live[i]);
    }
    forall k | k in Keys(rest)
      ensures k in left
    {
      var i := KeyWitness(rest, k);
    }
    assert left.Keys == Keys(rest);
  }

  /** Pruning the four collections is the same as pruning the history they show. */
  lemma PruneKeepsViews(g: Gate, live: seq<Admission>, now: nat)
    requires Views(g, live) && Ordered(live, now)
    ensures Views(Pruned(g, now), Since(live, now - LIVENESS_WINDOW_MS))
  {
    hide Since, PrunedSenders, PrunedReplays, DropOld;
    var cutoff := now - LIVENESS_WINDOW_MS;
    DropOldOfTimes(live, cutoff);
    PruneSenders(g.senderAdmissions, live, cutoff, now);
    PruneReplays(g.replays, live, now);
  }

  // ---------------------------------------------------------------- sizes

  lemma {:induction false} KeyCount(h: seq<Admission>)
    ensures |Keys(h)| <= |h|
  {
    if h != [] {
      KeyCount(h[1..]);
    }
  }

  lemma {:induction false} KeyAbsent(h: seq<Admission>, k: string)
    requires forall a :: a in h ==> KeyOf(a) != k
    ensures k !in Keys(h)
  {
    if h != [] {
      KeyAbsent(h[1..], k);
    }
  }

  lemma {:induction false} DistinctKeyCount(h: seq<Admission>)
    requires DistinctKeys(h)
    ensures |Keys(h)| == |h|
  {
    if h != [] {
      DistinctKeyCount(h[1..]);
      forall a | a in h[1..]
        ensures KeyOf(a) != KeyOf(h[0])
      {
        var i :| 0 <= i < |h[1..]| && h[1..][i] == a;
        assert h[i + 1] == a;
      }
      KeyAbsent(h[1..], KeyOf(h[0]));
    }
  }

  lemma {:induction false} FewSenders(h: seq<Admission>, senders: set<string>)
    requires forall s :: s in senders ==> BySender(h, s) != []
    ensures |senders| <= |h|
  {
    if h == [] {
      assert senders == {};
    } else {
      var rest := senders - {h[0].sender};
      forall s | s in rest
        ensures BySender(h[1..], s) != []
      {
      }
      FewSenders(h[1..], rest);
      FewerNames(senders, rest + {h[0].sender});
    }
  }

  ghost function SumOfSizes(m: map<string, seq<nat>>, senders: set<string>): nat
    requires senders <= m.Keys
  {
    if senders == {} then 0
    else
      var s :| s in senders;
      |m[s]| + SumOfSizes(m, senders - {s})
  }

  function CountOf(h: seq<Admission>, senders: set<string>): nat {
    if h == [] then 0
    else CountOf(h[1..], senders) + if h[0].sender in senders then 1 else 0
  }

  lemma {:induction false} CountSplits(h: seq<Admission>, senders: set<string>, s: string)
    requires s in senders
    ensures CountOf(h, senders) == |BySender(h, s)| + CountOf(h, senders - {s})
  {
    if h != [] {
      CountSplits(h[1..], senders, s);
    }
  }

  lemma {:induction false} CountNone(h: seq<Admission>)
    ensures CountOf(h, {}) == 0
  {
    if h != [] {
      CountNone(h[1..]);
    }
  }

  lemma {:induction false} CountEvery(h: seq<Admission>, senders: set<string>)
    requires forall a :: a in h ==> a.sender in senders
    ensures CountOf(h, senders) == |h|
  {
    if h != [] {
      CountEvery(h[1..], senders);
    }
  }

  lemma {:induction false} SumCounts(h: seq<Admission>, m: map<string, seq<nat>>, senders: set<string>)
    requires senders <= m.Keys && forall s :: s in m ==> m[s] == Times(BySender(h, s))
    ensures SumOfSizes(m, senders) == CountOf(h, senders)
    decreases senders
  {
    if senders == {} {
      CountNone(h);
    } else {
      var s :| s in senders && SumOfSizes(m, senders) == |m[s]| + SumOfSizes(m, senders - {s});
      SumCounts(h, m, senders - {s});
      CountSplits(h, senders, s);
      TimesSize(BySender(h, s));
    }
  }

  /** The replay map, the global list and the per-sender lists always have the same total size. */
  lemma SizesAgree(g: Gate, live: seq<Admission>)
    requires Views(g, live)
    ensures |g.replays| == |g.globalAdmissions| == |live|
    ensures SumOfSizes(g.senderAdmissions, g.senderAdmissions.Keys) == |g.globalAdmissions|
  {
    DistinctKeyCount(live);
    TimesSize(live);
    SumCounts(live, g.senderAdmissions, g.senderAdmissions.Keys);
    forall a | a in live
      ensures a.sender in g.senderAdmissions
    {
      BySenderMembers(live, a.sender, a);
    }
    CountEvery(live, g.senderAdmissions.Keys);
  }

  lemma SinceIsShort(h: seq<Admission>, cutoff: int, now: nat, k: nat)
    requires Ordered(h, now)
    requires |h| > k ==> h[|h| - 1 - k].time <= cutoff
    ensures |Since(h, cutoff)| <= k
  {
    hide Since;
    var d := SinceIsSuffix(h, cutoff);
    assert forall i :: d <= i < |h| ==> h[d].time <= h[i].time;
  }

  lemma SpacedBack(h: seq<Admission>, limit: nat, now: nat)
    requires Ordered(h, now) && Spaced(h, limit)
    ensures |h| > limit ==> h[|h| - 1 - limit].time <= now - LIVENESS_WINDOW_MS
    ensures |h| > 2 * limit ==> h[|h| - 1 - 2 * limit].time <= now - 2 * LIVENESS_WINDOW_MS
  {
    var n := |h|;
    if n > limit {
      assert h[n - 1 - limit].time + LIVENESS_WINDOW_MS <= h[n - 1].time;
    }
    if n > 2 * limit {
      assert h[n - 1 - 2 * limit].time + LIVENESS_WINDOW_MS <= h[n - 1 - limit].time;
    }
  }

  /** One window holds at most the limit, two windows at most twice the limit. */
  lemma RecentIsBounded(h: seq<Admission>, limit: nat, now: nat)
    requires Ordered(h, now) && Spaced(h, limit)
    ensures |Since(h, now - LIVENESS_WINDOW_MS)| <= limit
    ensures |Since(h, now - 2 * LIVENESS_WINDOW_MS)| <= 2 * limit
  {
    hide Since, Ordered, Spaced;
    SpacedBack(h, limit, now);
    SinceIsShort(h, now - LIVENESS_WINDOW_MS, now, limit);
    SinceIsShort(h, now - 2 * LIVENESS_WINDOW_MS, now, 2 * limit);
  }

  /** Living grants answer admissions of the last two windows, so there are at most 512. */
  lemma GrantsAreFew(h: seq<Admission>, grants: map<string, Grant>, now: nat)
    requires History(h, now) && GrantsAnswer(h, grants)
    requires forall k :: k in grants ==> grants[k].expiresAtMs > now
    ensures |grants| <= 2 * LIVENESS_GLOBAL_PER_WINDOW
  {
    hide Since, Keys, BySender;
    var cutoff := now - 2 * LIVENESS_WINDOW_MS;
    var recent := Since(h, cutoff);
    forall k | k in grants
      ensures k in Keys(recent)
    {
      var a :| GrantAnswers(h, k, grants[k], a);
      SinceMembers(h, cutoff, now, a);
      KeyMember(recent, a);
    }
    RecentIsBounded(h, LIVENESS_GLOBAL_PER_WINDOW, now);
    KeyCount(recent);
    FewerNames(grants.Keys, Keys(recent));
  }

  // ---------------------------------------------------------------- what one admission does to the history

  function Admitted(sender: string, q: Query, now: nat): Admission {
    Admission(sender, q.requestId, q.expiresAtNs, now)
  }

  /** The deadline of a query lies in the future, but at most one window away. */
  predicate Fresh(q: Query, now: nat) {
    now <= MAX_SAFE_INTEGER && now * NS_PER_MS < q.expiresAtNs <= (now + LIVENESS_WINDOW_MS) * NS_PER_MS
  }

  /** When a query is admitted, in terms of the history alone. */
  ghost predicate Admissible(h: seq<Admission>, sender: string, q: Query, now: nat) {
    var live := Since(h, now - LIVENESS_WINDOW_MS);
    && IsCanonicalId(sender) && now <= MAX_SAFE_INTEGER
    && now * NS_PER_MS < q.expiresAtNs <= (now + LIVENESS_WINDOW_MS) * NS_PER_MS
    && (forall a :: a in live ==> !(a.sender == sender && a.requestId == q.requestId))
    && |BySender(live, sender)| < LIVENESS_PER_SENDER_PER_WINDOW
    && |live| < LIVENESS_GLOBAL_PER_WINDOW
  }

  lemma SpacedAppend(h: seq<Admission>, a: Admission, limit: nat)
    requires Spaced(h, limit) && limit > 0 && Ordered(h, a.time)
    requires |Since(h, a.time - LIVENESS_WINDOW_MS)| < limit
    ensures Spaced(h + [a], limit)
  {
    hide Since;
    var d := SinceIsSuffix(h, a.time - LIVENESS_WINDOW_MS);
    assert forall i :: 0 <= i < d ==> h[i].time <= h[d - 1].time;
  }

  /** A query admitted before, with the same deadline, is still remembered while the deadline is ahead. */
  lemma RepeatIsStillLive(a: Admission, q: Query, now: nat)
    requires Plausible(a) && Fresh(q, now) && a.expiresAtNs == q.expiresAtNs
    ensures a.time > now - LIVENESS_WINDOW_MS
  {
  }

  lemma AdmissionKeepsHistory(h: seq<Admission>, sender: string, q: Query, now: nat)
    requires History(h, now) && Admissible(h, sender, q, now)
    ensures History(h + [Admitted(sender, q, now)], now)
  {
    hide Since, BySender;
    var a, cutoff := Admitted(sender, q, now), now - LIVENESS_WINDOW_MS;
    SpacedAppend(h, a, LIVENESS_GLOBAL_PER_WINDOW);
    forall s
      ensures Spaced(BySender(h + [a], s), LIVENESS_PER_SENDER_PER_WINDOW)
    {
      BySenderAppend(h, a, s);
      if s == sender {
        BySenderOrdered(h, s, now);
        SinceBySender(h, s, cutoff, now);
        SpacedAppend(BySender(h, s), a, LIVENESS_PER_SENDER_PER_WINDOW);
      } else {
        assert BySender(h, s) + [] == BySender(h, s);
      }
    }
    forall b | b in h
      ensures !SameQuery(b, a)
    {
      SinceMembers(h, cutoff, now, b);
      if b.expiresAtNs == q.expiresAtNs {
        RepeatIsStillLive(b, q, now);
      }
    }
  }

  lemma AdmissionKeepsViews(g: Gate, live: seq<Admission>, a: Admission, g': Gate)
    requires Views(g, live) && KeyOf(a) !in Keys(live)
    requires g'.globalAdmissions == g.globalAdmissions + [a.time]
    requires g'.senderAdmissions == g.senderAdmissions[a.sender := Times(BySender(live, a.sender)) + [a.time]]
    requires g'.replays == g.replays[KeyOf(a) := a.time + LIVENESS_WINDOW_MS]
    ensures Views(g', live + [a])
  {
    hide Times, BySender, Keys;
    TimesAppend(live, a);
    KeysAppend(live, a);
    forall s
      ensures s in g'.senderAdmissions ==> g'.senderAdmissions[s] == Times(BySender(live + [a], s))
      ensures BySender(live + [a], s) != [] ==> s in g'.senderAdmissions
    {
      BySenderAppend(live, a, s);
      TimesAppend(BySender(live, s), a);
      assert a.sender != s ==> BySender(live, s) + [] == BySender(live, s);
    }
    forall b | b in live
      ensures KeyOf(b) != KeyOf(a)
    {
      KeyMember(live, b);
    }
  }

  lemma {:induction false} SinceAppend(h: seq<Admission>, a: Admission, cutoff: int)
    requires a.time > cutoff
    ensures Since(h + [a], cutoff) == Since(h, cutoff) + [a]
  {
    if h != [] && h[0].time <= cutoff {
      SinceAppend(h[1..], a, cutoff);
      assert (h + [a])[1..] == h[1..] + [a];
    }
  }

  lemma GrantsKeepAnswering(h: seq<Admission>, a: Admission, grants: map<string, Grant>)
    requires GrantsAnswer(h, grants)
    ensures GrantsAnswer(h + [a], grants)
  {
    forall k | k in grants
      ensures exists b :: GrantAnswers(h + [a], k, grants[k], b)
    {
      var b :| GrantAnswers(h, k, grants[k], b);
      assert GrantAnswers(h + [a], k, grants[k], b);
    }
  }

  lemma AnotherAnswer(h: seq<Admission>, grants: map<string, Grant>, k: string, grant: Grant)
    requires GrantsAnswer(h, grants) && exists a :: GrantAnswers(h, k, grant, a)
    ensures GrantsAnswer(h, grants[k := grant])
  {
  }

  ghost predicate Asked(live: seq<Admission>, sender: string, requestId: string) {
    exists a :: a in live && a.sender == sender && a.requestId == requestId
  }

  /** The key of a query is live exactly when a live admission has its sender and request id. */
  lemma KeyIsLive(live: seq<Admission>, sender: string, requestId: string)
    requires IsCanonicalId(sender) && forall a :: a in live ==> IsCanonicalId(a.sender)
    ensures Key(sender, requestId) in Keys(live) <==> Asked(live, sender, requestId)
  {
    hide Key, IsCanonicalId;
    if Key(sender, requestId) in Keys(live) {
      var i := KeyWitness(live, Key(sender, requestId));
      KeyIsInjective(sender, requestId, live[i].sender, live[i].requestId);
      assert live[i] in live;
    }
    if a :| a in live && a.sender == sender && a.requestId == requestId {
      KeyMember(live, a);
    }
  }

  /** The tests the gate makes on its collections decide exactly what the history says. */
  lemma AdmissionTests(g: Gate, h: seq<Admission>, now: nat, sender: string, q: Query)
    requires History(h, now) && Views(g, Since(h, now - LIVENESS_WINDOW_MS))
    requires IsCanonicalId(sender) && Fresh(q, now)
    ensures Admissible(h, sender, q, now) <==>
            && Key(sender, q.requestId) !in g.replays
            && (sender in g.senderAdmissions ==> |g.senderAdmissions[sender]| < LIVENESS_PER_SENDER_PER_WINDOW)
            && |g.globalAdmissions| < LIVENESS_GLOBAL_PER_WINDOW
    ensures |g.replays| <= LIVENESS_GLOBAL_PER_WINDOW
  {
    hide Since, BySender, Keys, Times, Key;
    var live := Since(h, now - LIVENESS_WINDOW_MS);
    SizesAgree(g, live);
    RecentIsBounded(h, LIVENESS_GLOBAL_PER_WINDOW, now);
    TimesSize(BySender(live, sender));
    forall a | a in live
      ensures IsCanonicalId(a.sender)
    {
      SinceMembers(h, now - LIVENESS_WINDOW_MS, now, a);
    }
    KeyIsLive(live, sender, q.requestId);
  }

  lemma RefusedAtOnce(h: seq<Admission>, sender: string, q: Query, now: nat)
    ensures Admissible(h, sender, q, now) ==> IsCanonicalId(sender) && Fresh(q, now)
  {
  }

  lemma NothingExpired(grants: map<string, Grant>, now: nat)
    requires forall k :: k in grants ==> grants[k].expiresAtMs > now
    ensures PrunedGrants(grants, now) == grants
  {
  }

  lemma EmptyListIsHarmless(g: Gate, live: seq<Admission>, sender: string)
    requires Views(g, live) && sender !in g.senderAdmissions
    ensures Views(g.(senderAdmissions := g.senderAdmissions[sender := []]), live)
  {
  }

  lemma AdmissionKeepsGate(g: Gate, h: seq<Admission>, sender: string, q: Query, now: nat, g': Gate)
    requires History(h, now) && Views(g, Since(h, now - LIVENESS_WINDOW_MS))
    requires Admissible(h, sender, q, now) && Key(sender, q.requestId) !in g.replays
    requires sender in g.senderAdmissions
    requires g' == g.(globalAdmissions := g.globalAdmissions + [now],
                      senderAdmissions := g.senderAdmissions[sender := g.senderAdmissions[sender] + [now]],
                      replays := g.replays[Key(sender, q.requestId) := now + LIVENESS_WINDOW_MS])
    ensures var h' := h + [Admitted(sender, q, now)];
            && History(h', now) && Views(g', Since(h', now - LIVENESS_WINDOW_MS))
  {
    hide Since, BySender, Keys, Times, Key, History, Admissible;
    var a := Admitted(sender, q, now);
    AdmissionKeepsHistory(h, sender, q, now);
    SinceAppend(h, a, now - LIVENESS_WINDOW_MS);
    AdmissionKeepsViews(g, Since(h, now - LIVENESS_WINDOW_MS), a, g');
  }

  /** Some unexpired grant names exactly this inbox, address, request and agent. */
  ghost predicate Covers(grants: map<string, Grant>, now: nat, inboxId: string, address: string, requestId: string,
                         agentId: string)
  {
    exists k :: k in grants && grants[k] == Grant(inboxId, address, requestId, agentId, grants[k].expiresAtMs)
                && grants[k].expiresAtMs > now
  }

  /** Grants are filed under their own sender and request, so one lookup finds every grant that covers a join. */
  lemma CoversIsKeyed(h: seq<Admission>, grants: map<string, Grant>, now: nat, inboxId: string, address: string,
                      requestId: string, agentId: string)
    requires GrantsAnswer(h, grants)
    ensures var key := Key(inboxId, requestId);
      Covers(grants, now, inboxId, address, requestId, agentId) <==>
      && key in grants && grants[key].expiresAtMs > now
      && grants[key].senderInboxId == inboxId && grants[key].senderAddress == address
      && grants[key].livenessRequestId == requestId && grants[key].tentacleAgentId == agentId
  {
    hide Key;
    if Covers(grants, now, inboxId, address, requestId, agentId) {
      var k :| k in grants && grants[k] == Grant(inboxId, address, requestId, agentId, grants[k].expiresAtMs)
               && grants[k].expiresAtMs > now;
      var a :| GrantAnswers(h, k, grants[k], a);
      assert k == Key(inboxId, requestId);
    }
  }

  // ---------------------------------------------------------------- the gate as an object

  class LivenessControlGate {
    var senderAdmissions: map<string, seq<nat>>
    var globalAdmissions: seq<nat>
    var replays: map<string, nat>
    var grants: map<string, Grant>

    /** Every admission ever made, and the clock reading of the last pruning. */
    ghost var admitted: seq<Admission>
    ghost var clock: nat

    ghost function Value(): Gate
      reads this
    {
      Gate(globalAdmissions, senderAdmissions, replays, grants)
    }

    ghost function Live(): seq<Admission>
      reads this`admitted, this`clock
    {
      Since(admitted, clock - LIVENESS_WINDOW_MS)
    }

    /** The gate without its grants. */
    ghost function Shown(): Gate
      reads this`globalAdmissions, this`senderAdmissions, this`replays
    {
      Gate(globalAdmissions, senderAdmissions, replays, map[])
    }

    ghost predicate AdmissionsValid()
      reads this`globalAdmissions, this`senderAdmissions, this`replays, this`admitted, this`clock
    {
      && History(admitted, clock)
      && Views(Shown(), Live())
    }

    /** Refused queries of new senders leave empty lists behind, but only one until the next pruning. */
    ghost predicate Valid()
      reads this
    {
      && AdmissionsValid()
      && GrantsAnswer(admitted, grants)
      && (forall k :: k in grants ==> grants[k].expiresAtMs > clock)
      && |senderAdmissions| <= LIVENESS_GLOBAL_PER_WINDOW + 1
    }

    /** A query whose deadline is still ahead was admitted within the window. */
    lemma StillAsked(sender: string, q: Query, admitMs: nat, now: nat)
      requires Valid() && admitted != [] && admitted[|admitted| - 1] == Admitted(sender, q, admitMs)
      ensures Fresh(q, admitMs) && q.expiresAtNs / NS_PER_MS > now ==>
                Asked(Since(admitted, now - LIVENESS_WINDOW_MS), sender, q.requestId)
    {
      if Fresh(q, admitMs) && q.expiresAtNs / NS_PER_MS > now {
        var a := admitted[|admitted| - 1];
        assert admitMs + LIVENESS_WINDOW_MS > now;
        SinceMembers(admitted, now - LIVENESS_WINDOW_MS, clock, a);
        hide Since;
        assert a in Since(admitted, now - LIVENESS_WINDOW_MS);
      }
    }

    lemma GrantsAreAnswers()
      requires Valid()
      ensures GrantsAnswer(admitted, grants)
      ensures forall now :: GrantsAnswer(admitted, PrunedGrants(grants, now))
    {
    }

    constructor ()
      ensures Valid() && admitted == [] && clock == 0 && grants == map[]
    {
      senderAdmissions, globalAdmissions, replays, grants := map[], [], map[], map[];
      admitted, clock := [], 0;
    }

    /** The bounds that make the sender, replay and grant capacity checks dead code. */
    lemma Bounds()
      requires Valid()
      ensures |replays| == |globalAdmissions| == SumOfSizes(senderAdmissions, senderAdmissions.Keys)
      ensures |replays| <= LIVENESS_GLOBAL_PER_WINDOW < MAX_LIVENESS_REPLAYS
      ensures |grants| <= 2 * LIVENESS_GLOBAL_PER_WINDOW < MAX_LIVENESS_GRANTS
      ensures |senderAdmissions| <= LIVENESS_GLOBAL_PER_WINDOW + 1 < MAX_LIVENESS_SENDERS
    {
      hide Since, Views, GrantsAnswer, Ordered, Spaced, BySender, SumOfSizes;
      SizesAgree(Shown(), Live());
      RecentIsBounded(admitted, LIVENESS_GLOBAL_PER_WINDOW, clock);
      GrantsAreFew(admitted, grants, clock);
    }

    method Prune(nowMs: nat)
      requires Valid() && nowMs >= clock
      modifies this
      ensures Valid() && clock == nowMs && admitted == old(admitted)
      ensures Value() == Pruned(old(Value()), nowMs) && grants == PrunedGrants(old(grants), nowMs)
      ensures |senderAdmissions| <= LIVENESS_GLOBAL_PER_WINDOW
    {
      hide DropOld, PrunedSenders, PrunedReplays, Since, History, GrantsAnswer, SendersShow, ReplaysShow;
      var cutoff := nowMs - LIVENESS_WINDOW_MS;
      PruneGlobal(cutoff);
      PruneSenderLists(cutoff);
      PruneReplayMap(nowMs);
      PruneGrantMap(nowMs);
      clock := nowMs;
      PruningKeepsValid(old(admitted), old(clock), old(Value()), nowMs);
    }

    method PruneGlobal(cutoff: int)
      modifies this`globalAdmissions
      ensures globalAdmissions == DropOld(old(globalAdmissions), cutoff)
    {
      while globalAdmissions != [] && globalAdmissions[0] <= cutoff
        invariant DropOld(globalAdmissions, cutoff) == DropOld(old(globalAdmissions), cutoff)
        decreases |globalAdmissions|
      {
        globalAdmissions := globalAdmissions[1..];
      }
    }

    method PruneSenderLists(cutoff: int)
      modifies this`senderAdmissions
      ensures senderAdmissions == PrunedSenders(old(senderAdmissions), cutoff)
    {
      ghost var before := senderAdmissions;
      var left := senderAdmissions.Keys;
      while left != {}
        invariant left <= before.Keys && senderAdmissions.Keys <= before.Keys
        invariant forall s :: s in left ==> s in senderAdmissions && senderAdmissions[s] == before[s]
        invariant forall s :: s in before && s !in left ==>
                    if DropOld(before[s], cutoff) == [] then s !in senderAdmissions
                    else s in senderAdmissions && senderAdmissions[s] == DropOld(before[s], cutoff)
        decreases |left|
      {
        var inboxId :| inboxId in left;
        var admissions := senderAdmissions[inboxId];
        while admissions != [] && admissions[0] <= cutoff
          invariant DropOld(admissions, cutoff) == DropOld(before[inboxId], cutoff)
          decreases |admissions|
        {
          admissions := admissions[1..];
        }
        if |admissions| == 0 {
          senderAdmissions := senderAdmissions - {inboxId};
        } else {
          senderAdmissions := senderAdmissions[inboxId := admissions];
        }
        left := left - {inboxId};
      }
    }

    method PruneReplayMap(nowMs: nat)
      modifies this`replays
      ensures replays == PrunedReplays(old(replays), nowMs)
    {
      ghost var before := replays;
      var left := replays.Keys;
      while left != {}
        invariant left <= replays.Keys <= before.Keys
        invariant forall k :: k in replays ==> replays[k] == before[k] && (k in left || replays[k] > nowMs)
        invariant forall k :: k in before && before[k] > nowMs ==> k in replays
        decreases |left|
      {
        var key :| key in left;
        if replays[key] <= nowMs {
          replays := replays - {key};
        }
        left := left - {key};
      }
    }

    method PruneGrantMap(nowMs: nat)
      modifies this`grants
      ensures grants == PrunedGrants(old(grants), nowMs)
    {
      ghost var before := grants;
      var left := grants.Keys;
      while left != {}
        invariant left <= grants.Keys <= before.Keys
        invariant forall k :: k in grants ==> grants[k] == before[k] && (k in left || grants[k].expiresAtMs > nowMs)
        invariant forall k :: k in before && before[k].expiresAtMs > nowMs ==> k in grants
        decreases |left|
      {
        var key :| key in left;
        if grants[key].expiresAtMs <= nowMs {
          grants := grants - {key};
        }
        left := left - {key};
      }
    }

    lemma PruningKeepsValid(h: seq<Admission>, was: nat, g: Gate, nowMs: nat)
      requires admitted == h && clock == nowMs >= was && Value() == Pruned(g, nowMs)
      requires History(h, was) && Views(g, Since(h, was - LIVENESS_WINDOW_MS)) && GrantsAnswer(h, g.grants)
      ensures Valid() && |senderAdmissions| <= LIVENESS_GLOBAL_PER_WINDOW
    {
      hide Since, BySender, DropOld, PrunedReplays, PrunedSenders, SendersShow, ReplaysShow;
      var cutoff := nowMs - LIVENESS_WINDOW_MS;
      var live := Since(h, was - LIVENESS_WINDOW_MS);
      assert Ordered(live, nowMs) by {
        var d := SinceIsSuffix(h, was - LIVENESS_WINDOW_MS);
      }
      SinceTwice(h, was - LIVENESS_WINDOW_MS, cutoff);
      PruneKeepsViews(g, live, nowMs);
      PruneSenders(g.senderAdmissions, live, cutoff, nowMs);
      RecentIsBounded(h, LIVENESS_GLOBAL_PER_WINDOW, nowMs);
      FewSenders(Live(), senderAdmissions.Keys);
    }

    /** The three pushes of an admission. */
    method Record(nowMs: nat, senderInboxId: string, query: Query)
      requires Valid() && clock == nowMs && Admissible(admitted, senderInboxId, query, nowMs)
      requires Key(senderInboxId, query.requestId) !in replays && senderInboxId in senderAdmissions
      modifies this`senderAdmissions, this`globalAdmissions, this`replays, this`admitted
      ensures Valid() && admitted == old(admitted) + [Admitted(senderInboxId, query, nowMs)]
    {
      hide Since, BySender, Key, Times, History, Views, GrantsAnswer, Admissible;
      ghost var before := Shown();
      senderAdmissions := senderAdmissions[senderInboxId := senderAdmissions[senderInboxId] + [nowMs]];
      globalAdmissions := globalAdmissions + [nowMs];
      replays := replays[Key(senderInboxId, query.requestId) := nowMs + LIVENESS_WINDOW_MS];
      AdmissionKeepsGate(before, admitted, senderInboxId, query, nowMs, Shown());
      GrantsKeepAnswering(admitted, Admitted(senderInboxId, query, nowMs), grants);
      admitted := admitted + [Admitted(senderInboxId, query, nowMs)];
    }

    method AdmitQuery(nowMs: nat, senderInboxId: string, query: Query) returns (ok: bool)
      requires Valid() && nowMs >= clock
      modifies this
      ensures Valid() && nowMs >= clock >= old(clock)
      ensures ok <==> Admissible(old(admitted), senderInboxId, query, nowMs)
      ensures admitted == old(admitted) + if ok then [Admitted(senderInboxId, query, nowMs)] else []
      ensures grants == PrunedGrants(old(grants), clock)
    {
      hide Since, BySender, Keys, Key, Times, History, Views, GrantsAnswer, Pruned, IsCanonicalId, Admissible, PrunedGrants,
           Fresh;
      RefusedAtOnce(admitted, senderInboxId, query, nowMs);
      NothingExpired(grants, clock);
      if !IsCanonicalId(senderInboxId) || !Fresh(query, nowMs) {
        return false;
      }
      Prune(nowMs);
      ghost var live := Since(admitted, nowMs - LIVENESS_WINDOW_MS);
      AdmissionTests(Shown(), admitted, nowMs, senderInboxId, query);
      var key := Key(senderInboxId, query.requestId);
      if key in replays {
        return false;
      }
      if senderInboxId !in senderAdmissions {
        if |senderAdmissions| >= MAX_LIVENESS_SENDERS {
          return false;
        }
        EmptyListIsHarmless(Shown(), live, senderInboxId);
        senderAdmissions := senderAdmissions[senderInboxId := []];
      }
      if |senderAdmissions[senderInboxId]| >= LIVENESS_PER_SENDER_PER_WINDOW
         || |globalAdmissions| >= LIVENESS_GLOBAL_PER_WINDOW || |replays| >= MAX_LIVENESS_REPLAYS {
        return false;
      }
      Record(nowMs, senderInboxId, query);
      return true;
    }

    /** A grant answers a live admission of exactly this sender and request, and only once. */
    method IssueGrant(nowMs: nat, senderInboxId: string, senderAddress: string, query: Query, tentacleAgentId: string)
      returns (ok: bool)
      requires Valid() && nowMs >= clock
      modifies this
      ensures Valid() && clock == nowMs && admitted == old(admitted)
      ensures ok <==>
              && IsCanonicalId(senderInboxId) && IsCanonicalAgentId(tentacleAgentId)
              && query.targetAgentId == tentacleAgentId
              && Asked(Live(), senderInboxId, query.requestId)
              && Key(senderInboxId, query.requestId) !in PrunedGrants(old(grants), nowMs)
              && query.expiresAtNs / NS_PER_MS > nowMs
      ensures grants == if !ok then PrunedGrants(old(grants), nowMs)
                        else PrunedGrants(old(grants), nowMs)[Key(senderInboxId, query.requestId) :=
                          Grant(senderInboxId, senderAddress, query.requestId, tentacleAgentId, nowMs + LIVENESS_WINDOW_MS)]
    {
      hide Since, Key, AdmissionsValid, Pruned, IsCanonicalId, IsCanonicalAgentId, GrantsAnswer, Asked, GrantAnswers;
      Prune(nowMs);
      Bounds();
      if IsCanonicalId(senderInboxId) {
        LiveKeyTest(senderInboxId, query.requestId);
      }
      var key := Key(senderInboxId, query.requestId);
      if key !in replays || !IsCanonicalId(senderInboxId) || !IsCanonicalAgentId(tentacleAgentId)
         || query.targetAgentId != tentacleAgentId || key in grants || |grants| >= MAX_LIVENESS_GRANTS {
        return false;
      }
      var queryExpiresAtMs := query.expiresAtNs / NS_PER_MS;
      if queryExpiresAtMs <= nowMs {
        return false;
      }
      var grant := Grant(senderInboxId, senderAddress, query.requestId, tentacleAgentId, nowMs + LIVENESS_WINDOW_MS);
      GrantAnswersLiveAdmission(key, grant);
      AnotherAnswer(admitted, grants, key, grant);
      grants := grants[key := grant];
      return true;
    }

    lemma LiveKeyTest(sender: string, requestId: string)
      requires Valid() && IsCanonicalId(sender)
      ensures Key(sender, requestId) in replays <==> Asked(Live(), sender, requestId)
    {
      hide Since, BySender, Keys, Key, Times, GrantsAnswer;
      forall a | a in Live()
        ensures IsCanonicalId(a.sender)
      {
        SinceMembers(admitted, clock - LIVENESS_WINDOW_MS, clock, a);
      }
      KeyIsLive(Live(), sender, requestId);
    }

    lemma GrantAnswersLiveAdmission(key: string, grant: Grant)
      requires Valid() && key == Key(grant.senderInboxId, grant.livenessRequestId)
      requires Asked(Live(), grant.senderInboxId, grant.livenessRequestId)
      requires grant.expiresAtMs == clock + LIVENESS_WINDOW_MS
      ensures exists a :: GrantAnswers(admitted, key, grant, a)
    {
      hide Since, BySender, Keys, Times, GrantsAnswer;
      var a :| a in Live() && a.sender == grant.senderInboxId && a.requestId == grant.livenessRequestId;
      SinceMembers(admitted, clock - LIVENESS_WINDOW_MS, clock, a);
      assert GrantAnswers(admitted, key, grant, a);
    }

    /** True exactly when an unexpired grant names this inbox, address, request and agent. */
    method HasGrant(nowMs: nat, senderInboxId: string, senderAddress: string, livenessRequestId: string,
                    tentacleAgentId: string)
      returns (ok: bool)
      requires Valid() && nowMs >= clock
      modifies this
      ensures Valid() && clock == nowMs && admitted == old(admitted)
      ensures grants == PrunedGrants(old(grants), nowMs)
      ensures ok <==> Covers(old(grants), nowMs, senderInboxId, senderAddress, livenessRequestId, tentacleAgentId)
    {
      CoversIsKeyed(admitted, grants, nowMs, senderInboxId, senderAddress, livenessRequestId, tentacleAgentId);
      hide AdmissionsValid, GrantsAnswer, Pruned, Covers, Key;
      Prune(nowMs);
      var key := Key(senderInboxId, livenessRequestId);
      ok := key in grants
            && grants[key].expiresAtMs > nowMs
            && grants[key].senderInboxId == senderInboxId
            && grants[key].senderAddress == senderAddress
            && grants[key].livenessRequestId == livenessRequestId
            && grants[key].tentacleAgentId == tentacleAgentId;
    }

    method ConsumeGrant(nowMs: nat, senderInboxId: string, senderAddress: string, livenessRequestId: string,
                        tentacleAgentId: string)
      returns (ok: bool)
      requires Valid() && nowMs >= clock
      modifies this
      ensures Valid() && clock == nowMs && admitted == old(admitted)
      ensures ok <==> Covers(old(grants), nowMs, senderInboxId, senderAddress, livenessRequestId, tentacleAgentId)
      ensures grants == PrunedGrants(old(grants), nowMs) - if ok then {Key(senderInboxId, livenessRequestId)} else {}
    {
      hide Covers, AdmissionsValid, Pruned, Since, Key;
      ok := HasGrant(nowMs, senderInboxId, senderAddress, livenessRequestId, tentacleAgentId);
      if ok {
        grants := grants - {Key(senderInboxId, livenessRequestId)};
      } else {
        assert grants - {} == grants;
      }
    }

    method RevokeGrant(senderInboxId: string, livenessRequestId: string)
      requires Valid()
      modifies this`grants
      ensures Valid() && grants == old(grants) - {Key(senderInboxId, livenessRequestId)}
    {
      hide AdmissionsValid;
      grants := grants - {Key(senderInboxId, livenessRequestId)};
    }
  }
}
