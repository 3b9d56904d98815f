/**
 Five workers read the log history of a block interval in ranges of ten thousand blocks. They share a range
 counter, a log budget and a cancel flag, and interleave at every remote read.
 */
module LogReader {
  import opened Wrappers

  const LOG_BLOCK_SPAN: nat := 10_000
  const DISCOVERY_CONCURRENCY: nat := 5
  const MAX_DISCOVERY_LOGS: nat := 4_096
  const MAX_DISCOVERY_RAW_LOGS_PER_CHUNK: nat := 4_096

  datatype RegistryEvent =
    | Registered(agentId: nat, owner: string, transactionHash: string)
    | Transfer(tokenId: nat, to: string)
    | Approval(tokenId: nat, approved: string)
    | ApprovalForAll(owner: string, operator: string, allowed: bool)
    | AgentWalletSet(agentId: nat, wallet: string)

  datatype Log = Log(block: nat, event: RegistryEvent)

  datatype Range = Range(fromBlock: nat, toBlock: nat)

  predicate InOrder(chain: seq<Log>) {
    forall i, j :: 0 <= i < j < |chain| ==> chain[i].block <= chain[j].block
  }

  /** One scan of the chain: the selected logs of the blocks from `first` to `last`. */
  function Scan(chain: seq<Log>, first: nat, last: nat, select: RegistryEvent -> bool): (r: seq<Log>) {
    if chain == [] then []
    else
      var n := |chain| - 1;
      Scan(chain[..n], first, last, select)
      + if first <= chain[n].block <= last && select(chain[n].event) then [chain[n]] else []
  }

  // ---------------------------------------------------------------- the ranges

  function Ranges(first: nat, last: nat): (r: seq<Range>)
    decreases last + 1 - first
  {
    if first > last then []
    else
      [Range(first, if first + LOG_BLOCK_SPAN - 1 > last then last else first + LOG_BLOCK_SPAN - 1)]
      + Ranges(first + LOG_BLOCK_SPAN, last)
  }

  /** The ranges are consecutive, at most ten thousand blocks long, and cover the interval exactly. */
  lemma {:induction false} RangesPartition(first: nat, last: nat, i: nat)
    requires i < |Ranges(first, last)|
    ensures var rs := Ranges(first, last);
      && rs[i].fromBlock <= rs[i].toBlock <= last
      && rs[i].toBlock - rs[i].fromBlock < LOG_BLOCK_SPAN
      && rs[0].fromBlock == first && rs[|rs| - 1].toBlock == last
      && (i > 0 ==> rs[i].fromBlock == rs[i - 1].toBlock + 1)
    decreases last + 1 - first
  {
    var rest := Ranges(first + LOG_BLOCK_SPAN, last);
    if rest != [] {
      RangesPartition(first + LOG_BLOCK_SPAN, last, if i == 0 then 0 else i - 1);
    }
  }

  method BuildRanges(firstBlock: nat, observedBlockNumber: nat) returns (ranges: seq<Range>)
    ensures ranges == Ranges(firstBlock, observedBlockNumber)
  {
    ranges := [];
    var fromBlock := firstBlock;
    while fromBlock <= observedBlockNumber
      invariant ranges + Ranges(fromBlock, observedBlockNumber) == Ranges(firstBlock, observedBlockNumber)
      decreases observedBlockNumber + 1 - fromBlock
    {
      var toBlock :=
        if fromBlock + LOG_BLOCK_SPAN - 1 > observedBlockNumber then observedBlockNumber
        else fromBlock + LOG_BLOCK_SPAN - 1;
      ranges := ranges + [Range(fromBlock, toBlock)];
      fromBlock := fromBlock + LOG_BLOCK_SPAN;
    }
  }

  lemma {:induction false} ScanSplits(chain: seq<Log>, first: nat, mid: nat, last: nat, select: RegistryEvent -> bool)
    requires InOrder(chain) && first <= mid <= last
    ensures Scan(chain, first, last, select) == Scan(chain, first, mid, select) + Scan(chain, mid + 1, last, select)
  {
    if chain != [] {
      hide InOrder;
      var n := |chain| - 1;
      InOrderPrefix(chain);
      ScanSplits(chain[..n], first, mid, last, select);
      if chain[n].block <= mid {
        ScanBefore(chain[..n], mid + 1, last, select, chain[n].block);
      }
    }
  }

  ghost predicate NoneAfter(chain: seq<Log>, head: nat) {
    forall i :: 0 <= i < |chain| ==> chain[i].block <= head
  }

  lemma InOrderPrefix(chain: seq<Log>)
    requires InOrder(chain) && chain != []
    ensures InOrder(chain[..|chain| - 1])
    ensures NoneAfter(chain[..|chain| - 1], chain[|chain| - 1].block)
  {
  }

  lemma {:induction false} ScanBefore(chain: seq<Log>, first: nat, last: nat, select: RegistryEvent -> bool, head: nat)
    requires NoneAfter(chain, head) && head < first
    ensures Scan(chain, first, last, select) == []
  {
    if chain != [] {
      ScanBefore(chain[..|chain| - 1], first, last, select, head);
    }
  }

  // ---------------------------------------------------------------- the workers

  /** The call: what the chain holds, which logs the provider is asked for, and which of them are accepted. */
  datatype Job = Job(chain: seq<Log>, first: nat, last: nat, asked: RegistryEvent -> bool,
                     accept: RegistryEvent -> bool, budget: nat)

  datatype Worker = Idle | Fetching(index: nat) | Done

  /** `claims` records which ranges were handed out, in order; the code does not keep it. */
  datatype Reader = Reader(
    nextRange: nat,
    claims: seq<nat>,
    cancelled: bool,
    firstFailure: Option<string>,
    chunks: map<nat, seq<Log>>,
    logs: nat,
    workers: seq<Worker>)

  function Count(job: Job): nat { |Ranges(job.first, job.last)| }

  function Selected(job: Job): RegistryEvent -> bool { e => job.asked(e) && job.accept(e) }

  function Raw(job: Job, i: nat): seq<Log>
    requires i < Count(job)
  {
    Scan(job.chain, Ranges(job.first, job.last)[i].fromBlock, Ranges(job.first, job.last)[i].toBlock, job.asked)
  }

  function Decoded(job: Job, i: nat): seq<Log>
    requires i < Count(job)
  {
    Scan(job.chain, Ranges(job.first, job.last)[i].fromBlock, Ranges(job.first, job.last)[i].toBlock, Selected(job))
  }

  ghost function Start(job: Job): Reader {
    var workers := if Count(job) < DISCOVERY_CONCURRENCY then Count(job) else DISCOVERY_CONCURRENCY;
    Reader(0, [], false, None, map[], job.budget, seq(workers, i => Idle))
  }

  function Fail(s: Reader, w: nat, code: string): Reader
    requires w < |s.workers|
  {
    s.(cancelled := true,
       firstFailure := if s.firstFailure.None? then Some(code) else s.firstFailure,
       workers := s.workers[w := Done])
  }

  /** One worker moves on: it claims a range, or its remote read answers (`transport` is a failed read). */
  ghost function Step(job: Job, s: Reader, w: nat, transport: Option<string>): Reader
    requires w < |s.workers|
  {
    match s.workers[w]
    case Idle =>
      if s.cancelled then s.(workers := s.workers[w := Done])
      else if s.nextRange < Count(job) then
        s.(nextRange := s.nextRange + 1, claims := s.claims + [s.nextRange],
           workers := s.workers[w := Fetching(s.nextRange)])
      else s.(nextRange := s.nextRange + 1, workers := s.workers[w := Done])
    case Fetching(i) =>
      if i >= Count(job) then s
      else if transport.Some? then Fail(s, w, transport.value)
      else if |Raw(job, i)| > MAX_DISCOVERY_RAW_LOGS_PER_CHUNK then Fail(s, w, "candidate_limit")
      else
        var t := s.(logs := s.logs + |Decoded(job, i)|);
        if t.logs > MAX_DISCOVERY_LOGS then Fail(t, w, "candidate_limit")
        else t.(chunks := s.chunks[i := Decoded(job, i)], workers := s.workers[w := Idle])
    case Done => s
  }

  predicate Finished(s: Reader) { forall w :: 0 <= w < |s.workers| ==> s.workers[w].Done? }

  /** `chunks.flat()`: a range that was never stored counts as empty. */
  function Flat(chunks: map<nat, seq<Log>>, n: nat): seq<Log> {
    if n == 0 then [] else Flat(chunks, n - 1) + if n - 1 in chunks then chunks[n - 1] else []
  }

  // ---------------------------------------------------------------- the invariant

  ghost predicate Claims(job: Job, s: Reader) {
    && (forall w :: 0 <= w < |s.workers| && s.workers[w].Fetching? ==>
          s.workers[w].index < s.nextRange && s.workers[w].index < Count(job) && s.workers[w].index !in s.chunks)
    && (forall v, w :: 0 <= v < w < |s.workers| && s.workers[v].Fetching? && s.workers[w].Fetching? ==>
          s.workers[v].index != s.workers[w].index)
  }

  ghost predicate Stored(job: Job, s: Reader) {
    forall i :: i in s.chunks ==>
      && i < s.nextRange && i < Count(job) && s.chunks[i] == Decoded(job, i)
      && |Raw(job, i)| <= MAX_DISCOVERY_RAW_LOGS_PER_CHUNK
  }

  ghost predicate InFlight(s: Reader, i: nat) {
    exists w :: 0 <= w < |s.workers| && s.workers[w] == Fetching(i)
  }

  ghost predicate NothingLost(job: Job, s: Reader) {
    s.firstFailure.None? ==>
      && (forall i: nat :: i < s.nextRange && i < Count(job) ==> i in s.chunks || InFlight(s, i))
      && (forall w :: 0 <= w < |s.workers| && s.workers[w].Done? ==> s.nextRange >= Count(job))
      && s.logs == job.budget + |Flat(s.chunks, Count(job))|
      && (s.chunks != map[] ==> s.logs <= MAX_DISCOVERY_LOGS)
  }

  ghost predicate Inv(job: Job, s: Reader) {
    && |s.workers| == |Start(job).workers|
    && (s.cancelled <==> s.firstFailure.Some?)
    && |s.claims| == (if s.nextRange < Count(job) then s.nextRange else Count(job))
    && (forall k :: 0 <= k < |s.claims| ==> s.claims[k] == k)
    && Claims(job, s) && Stored(job, s) && NothingLost(job, s)
  }

  lemma {:induction false} FlatOfNone(n: nat)
    ensures Flat(map[], n) == []
  {
    if n > 0 {
      FlatOfNone(n - 1);
    }
  }

  lemma {:induction false} FlatGrows(chunks: map<nat, seq<Log>>, i: nat, chunk: seq<Log>, n: nat)
    requires i !in chunks
    ensures |Flat(chunks[i := chunk], n)| == |Flat(chunks, n)| + if i < n then |chunk| else 0
  {
    if n > 0 {
      FlatGrows(chunks, i, chunk, n - 1);
    }
  }

  lemma StartIsInv(job: Job)
    ensures Inv(job, Start(job))
  {
    FlatOfNone(Count(job));
  }

  lemma ClaimKeepsInv(job: Job, s: Reader, w: nat)
    requires Inv(job, s) && w < |s.workers| && s.workers[w].Idle?
    ensures Inv(job, Step(job, s, w, None))
  {
    hide Flat, Raw, Decoded, Count, Start;
    var t := Step(job, s, w, None);
    forall i: nat | t.firstFailure.None? && i < t.nextRange && i < Count(job)
      ensures i in t.chunks || InFlight(t, i)
    {
      if i == s.nextRange {
        assert t.workers[w] == Fetching(i);
      } else if i !in s.chunks {
        var v :| 0 <= v < |s.workers| && s.workers[v] == Fetching(i);
        assert t.workers[v] == Fetching(i);
      }
    }
  }

  lemma FailKeepsInv(job: Job, s: Reader, w: nat, logs: nat, code: string)
    requires Inv(job, s) && w < |s.workers|
    ensures Inv(job, Fail(s.(logs := logs), w, code))
  {
    hide Flat, Raw, Decoded, Count, Start;
  }

  lemma StoreKeepsInv(job: Job, s: Reader, w: nat)
    requires Inv(job, s) && w < |s.workers| && s.workers[w].Fetching?
    requires |Raw(job, s.workers[w].index)| <= MAX_DISCOVERY_RAW_LOGS_PER_CHUNK
    requires s.logs + |Decoded(job, s.workers[w].index)| <= MAX_DISCOVERY_LOGS
    ensures Inv(job, Step(job, s, w, None))
  {
    hide Flat, Raw, Decoded, Count, Start;
    var t, i := Step(job, s, w, None), s.workers[w].index;
    FlatGrows(s.chunks, i, Decoded(job, i), Count(job));
    forall k: nat | t.firstFailure.None? && k < t.nextRange && k < Count(job)
      ensures k in t.chunks || InFlight(t, k)
    {
      if k != i && k !in s.chunks {
        var v :| 0 <= v < |s.workers| && s.workers[v] == Fetching(k);
        assert t.workers[v] == Fetching(k);
      }
    }
  }

  lemma StepKeepsInv(job: Job, s: Reader, w: nat, transport: Option<string>)
    requires Inv(job, s) && w < |s.workers|
    ensures Inv(job, Step(job, s, w, transport))
  {
    hide Inv, Raw, Decoded;
    IndicesAreRanges(job, s);
    match s.workers[w]
    case Idle => ClaimKeepsInv(job, s, w);
    case Done =>
    case Fetching(i) =>
      if transport.Some? {
        FailKeepsInv(job, s, w, s.logs, transport.value);
      } else if |Raw(job, i)| > MAX_DISCOVERY_RAW_LOGS_PER_CHUNK {
        FailKeepsInv(job, s, w, s.logs, "candidate_limit");
      } else if s.logs + |Decoded(job, i)| > MAX_DISCOVERY_LOGS {
        FailKeepsInv(job, s, w, s.logs + |Decoded(job, i)|, "candidate_limit");
      } else {
        StoreKeepsInv(job, s, w);
      }
  }

  lemma IndicesAreRanges(job: Job, s: Reader)
    requires Inv(job, s)
    ensures forall v :: 0 <= v < |s.workers| && s.workers[v].Fetching? ==> s.workers[v].index < Count(job)
  {
  }

  // ---------------------------------------------------------------- whole runs

  datatype Choice = Choice(worker: nat, transport: Option<string>)

  /** Any schedule; a choice of a worker that does not exist changes nothing. */
  ghost function Run(job: Job, schedule: seq<Choice>): Reader {
    if schedule == [] then Start(job)
    else
      var n := |schedule| - 1;
      var s := Run(job, schedule[..n]);
      if schedule[n].worker < |s.workers| then Step(job, s, schedule[n].worker, schedule[n].transport) else s
  }

  lemma {:induction false} RunKeepsInv(job: Job, schedule: seq<Choice>)
    ensures Inv(job, Run(job, schedule))
  {
    hide Inv, Step, Start;
    if schedule == [] {
      StartIsInv(job);
    } else {
      var n := |schedule| - 1;
      RunKeepsInv(job, schedule[..n]);
      var s := Run(job, schedule[..n]);
      if schedule[n].worker < |s.workers| {
        StepKeepsInv(job, s, schedule[n].worker, schedule[n].transport);
      }
    }
  }

  /** No range is ever given to two workers. */
  lemma {:induction false} ClaimedOnce(job: Job, schedule: seq<Choice>, i: nat, j: nat)
    requires i < j < |Run(job, schedule).claims|
    ensures Run(job, schedule).claims[i] != Run(job, schedule).claims[j]
  {
    RunKeepsInv(job, schedule);
  }

  lemma {:induction false} FlatIsScan(job: Job, chunks: map<nat, seq<Log>>, n: nat)
    requires InOrder(job.chain) && 0 < n <= Count(job)
    requires forall i :: 0 <= i < n ==> i in chunks && chunks[i] == Decoded(job, i)
    ensures Flat(chunks, n) == Scan(job.chain, job.first, Ranges(job.first, job.last)[n - 1].toBlock, Selected(job))
  {
    hide Scan, Ranges, InOrder, Flat, Selected;
    FlatStep(chunks, n);
    var rs := Ranges(job.first, job.last);
    RangesPartition(job.first, job.last, n - 1);
    if n == 1 {
      FlatOfZero(chunks);
      assert [] + chunks[0] == chunks[0];
    } else {
      RangesPartition(job.first, job.last, n - 2);
      RangesReach(job.first, job.last, n - 2);
      FlatIsScan(job, chunks, n - 1);
      ScanSplits(job.chain, job.first, rs[n - 2].toBlock, rs[n - 1].toBlock, Selected(job));
    }
  }

  lemma FlatStep(chunks: map<nat, seq<Log>>, n: nat)
    requires n > 0 && n - 1 in chunks
    ensures Flat(chunks, n) == Flat(chunks, n - 1) + chunks[n - 1]
  {
  }

  lemma {:induction false} RangesReach(first: nat, last: nat, i: nat)
    requires i < |Ranges(first, last)|
    ensures first <= Ranges(first, last)[i].fromBlock <= Ranges(first, last)[i].toBlock
  {
    RangesPartition(first, last, i);
    if i > 0 {
      RangesPartition(first, last, i - 1);
      RangesReach(first, last, i - 1);
    }
  }

  lemma {:induction false} ScanOfNothing(chain: seq<Log>, first: nat, last: nat, select: RegistryEvent -> bool)
    requires first > last
    ensures Scan(chain, first, last, select) == []
  {
    if chain != [] {
      ScanOfNothing(chain[..|chain| - 1], first, last, select);
    }
  }

  /** The value the call returns once every worker has stopped. */
  ghost function Returned(job: Job, s: Reader): Result<seq<Log>, string> {
    if s.firstFailure.Some? then Err(s.firstFailure.value) else Ok(Flat(s.chunks, Count(job)))
  }

  /**
   However the workers interleave: a call that succeeds has stored every range, and returns exactly what one
   sequential scan of the whole interval returns, in the same order, with the budget charged once per log.
   */
  lemma SuccessIsOneScan(job: Job, schedule: seq<Choice>)
    requires InOrder(job.chain)
    requires Finished(Run(job, schedule)) && Run(job, schedule).firstFailure.None?
    ensures var s := Run(job, schedule);
      && (forall i: nat :: i < Count(job) ==> i in s.chunks)
      && Returned(job, s) == Ok(Scan(job.chain, job.first, job.last, Selected(job)))
      && s.logs == job.budget + |Scan(job.chain, job.first, job.last, Selected(job))|
  {
    hide Scan, Flat, Raw, InOrder, Ranges;
    RunKeepsInv(job, schedule);
    var s := Run(job, schedule);
    if Count(job) == 0 {
      NoRanges(job.first, job.last);
      ScanOfNothing(job.chain, job.first, job.last, Selected(job));
      assert Flat(s.chunks, 0) == [] by {
        FlatOfZero(s.chunks);
      }
    } else {
      assert s.workers[0].Done?;
      forall i: nat | i < Count(job)
        ensures i in s.chunks
      {
        assert i in s.chunks || InFlight(s, i);
      }
      RangesPartition(job.first, job.last, 0);
      FlatIsScan(job, s.chunks, Count(job));
    }
  }

  /** How often a scan returns a log: as often as the chain has it, if its block and its event are wanted. */
  lemma {:induction false} ScanCounts(chain: seq<Log>, first: nat, last: nat, select: RegistryEvent -> bool, log: Log)
    ensures multiset(Scan(chain, first, last, select))[log]
            == if first <= log.block <= last && select(log.event) then multiset(chain)[log] else 0
  {
    if chain != [] {
      var n := |chain| - 1;
      ScanCounts(chain[..n], first, last, select, log);
      assert chain == chain[..n] + [chain[n]];
    }
  }

  /** Told from the chain alone: every wanted log is returned exactly as often as it is there, and nothing else is. */
  lemma SuccessReturnsWhatIsWanted(job: Job, schedule: seq<Choice>, log: Log)
    requires InOrder(job.chain)
    requires Finished(Run(job, schedule)) && Run(job, schedule).firstFailure.None?
    ensures Returned(job, Run(job, schedule)).Ok?
    ensures multiset(Returned(job, Run(job, schedule)).value)[log] ==
            if job.first <= log.block <= job.last && job.asked(log.event) && job.accept(log.event)
            then multiset(job.chain)[log] else 0
  {
    SuccessIsOneScan(job, schedule);
    ScanCounts(job.chain, job.first, job.last, Selected(job), log);
  }

  lemma FlatOfZero(chunks: map<nat, seq<Log>>)
    ensures Flat(chunks, 0) == []
  {
  }

  lemma NoRanges(first: nat, last: nat)
    requires |Ranges(first, last)| == 0
    ensures first > last
  {
  }

  // ---------------------------------------------------------------- the outcome does not depend on the schedule

  /** The limits, stated without any schedule. */
  ghost predicate WithinLimits(job: Job) {
    && (forall i: nat :: i < Count(job) ==> |Raw(job, i)| <= MAX_DISCOVERY_RAW_LOGS_PER_CHUNK)
    && (Count(job) > 0 ==> job.budget + |Scan(job.chain, job.first, job.last, Selected(job))| <= MAX_DISCOVERY_LOGS)
  }

  lemma {:induction false} FlatWithinTotal(job: Job, chunks: map<nat, seq<Log>>, all: map<nat, seq<Log>>, n: nat)
    requires forall i :: i in chunks ==> i in all && chunks[i] == all[i]
    ensures |Flat(chunks, n)| <= |Flat(all, n)|
  {
    if n > 0 {
      FlatWithinTotal(job, chunks, all, n - 1);
    }
  }

  ghost function AllChunks(job: Job): map<nat, seq<Log>> {
    map i | 0 <= i < Count(job) :: Decoded(job, i)
  }

  lemma AllIsScan(job: Job)
    requires InOrder(job.chain) && Count(job) > 0
    ensures Flat(AllChunks(job), Count(job)) == Scan(job.chain, job.first, job.last, Selected(job))
  {
    hide Scan, Flat, Raw, InOrder, Ranges;
    RangesPartition(job.first, job.last, 0);
    FlatIsScan(job, AllChunks(job), Count(job));
  }

  /** Within the limits and with a provider that answers, no step fails. */
  lemma StepWithinLimits(job: Job, s: Reader, w: nat)
    requires InOrder(job.chain) && WithinLimits(job) && Inv(job, s) && s.firstFailure.None? && w < |s.workers|
    ensures Step(job, s, w, None).firstFailure.None?
  {
    hide Scan, Flat, Raw, Decoded, InOrder, Ranges;
    if s.workers[w].Fetching? {
      var i := s.workers[w].index;
      AllIsScan(job);
      FlatGrows(s.chunks, i, Decoded(job, i), Count(job));
      FlatWithinTotal(job, s.chunks[i := Decoded(job, i)], AllChunks(job), Count(job));
    }
  }

  lemma {:induction false} RunWithinLimits(job: Job, schedule: seq<Choice>)
    requires InOrder(job.chain) && WithinLimits(job)
    requires forall k :: 0 <= k < |schedule| ==> schedule[k].transport.None?
    ensures Run(job, schedule).firstFailure.None?
  {
    hide WithinLimits, Step, InOrder;
    if schedule != [] {
      var n := |schedule| - 1;
      RunWithinLimits(job, schedule[..n]);
      RunKeepsInv(job, schedule[..n]);
      if schedule[n].worker < |Run(job, schedule[..n]).workers| {
        StepWithinLimits(job, Run(job, schedule[..n]), schedule[n].worker);
      }
    }
  }

  /** When the provider answers every read, whether the call succeeds is decided by the logs alone. */
  lemma {:induction false} OutcomeIsScheduleFree(job: Job, schedule: seq<Choice>)
    requires InOrder(job.chain) && Finished(Run(job, schedule))
    requires forall k :: 0 <= k < |schedule| ==> schedule[k].transport.None?
    ensures Returned(job, Run(job, schedule)).Ok? <==> WithinLimits(job)
  {
    hide Scan, Flat, Raw, InOrder, Ranges, Decoded;
    if WithinLimits(job) {
      RunWithinLimits(job, schedule);
    }
    if Run(job, schedule).firstFailure.None? {
      SuccessIsOneScan(job, schedule);
      RunKeepsInv(job, schedule);
      var s := Run(job, schedule);
      if Count(job) > 0 {
        assert 0 in s.chunks;
      }
    }
  }

  // ---------------------------------------------------------------- failures and progress

  /** A failure is final: it cancels the call, and no later step assigns another range or clears it. */
  lemma FailureIsFinal(job: Job, s: Reader, w: nat, transport: Option<string>)
    requires Inv(job, s) && w < |s.workers| && s.firstFailure.Some?
    ensures var t := Step(job, s, w, transport);
      t.firstFailure == s.firstFailure && t.claims == s.claims && Returned(job, t) == Err(s.firstFailure.value)
  {
  }

  function Weight(workers: seq<Worker>): nat {
    if workers == [] then 0
    else
      var n := |workers| - 1;
      Weight(workers[..n]) + match workers[n] case Idle => 1 case Fetching(_) => 2 case Done => 0
  }

  ghost function WorkLeft(job: Job, s: Reader): nat {
    2 * (if s.nextRange < Count(job) then Count(job) - s.nextRange else 0) + Weight(s.workers)
  }

  lemma {:induction false} WeightUpdate(workers: seq<Worker>, w: nat, x: Worker)
    requires w < |workers|
    ensures Weight(workers[w := x]) - Weight([x]) == Weight(workers) - Weight([workers[w]])
  {
    var n := |workers| - 1;
    if w < n {
      WeightUpdate(workers[..n], w, x);
      assert workers[w := x][..n] == workers[..n][w := x];
    } else {
      assert workers[w := x][..n] == workers[..n];
    }
  }

  /** Every step of a worker that has not stopped brings the call closer to its end, also after a failure. */
  lemma StepIsProgress(job: Job, s: Reader, w: nat, transport: Option<string>)
    requires Inv(job, s) && w < |s.workers| && !s.workers[w].Done?
    ensures WorkLeft(job, Step(job, s, w, transport)) < WorkLeft(job, s)
  {
    hide Raw, Decoded, Stored, NothingLost, Weight, Start;
    var t := Step(job, s, w, transport);
    WeightUpdate(s.workers, w, t.workers[w]);
    WeightOfOne(t.workers[w]);
    WeightOfOne(s.workers[w]);
  }

  lemma WeightOfOne(x: Worker)
    ensures Weight([x]) == match x case Idle => 1 case Fetching(_) => 2 case Done => 0
  {
    assert [x][..0] == [];
    assert Weight([x][..0]) == 0;
  }

  // ---------------------------------------------------------------- the shared variables as an object

  /** What the workers share; between two remote reads, one of them updates it without interruption. */
  class SharedProgress {
    const job: Job
    const chunks: array<seq<Log>>
    var nextRange: nat
    var cancelled: bool
    var firstFailure: Option<string>
    var logs: nat
    var workers: seq<Worker>

    /** The ranges handed out, and those whose logs are stored. */
    ghost var claims: seq<nat>
    ghost var stored: set<nat>

    ghost predicate Sized()
      reads this, chunks
    {
      && chunks.Length == Count(job) && (forall i :: i in stored ==> i < chunks.Length)
      && (forall i :: 0 <= i < chunks.Length && i !in stored ==> chunks[i] == [])
    }

    ghost function Value(): Reader
      requires Sized()
      reads this, chunks
    {
      Reader(nextRange, claims, cancelled, firstFailure, map i | i in stored :: chunks[i], logs, workers)
    }

    ghost predicate Valid()
      reads this, chunks
    {
      Sized() && Inv(job, Value())
    }

    constructor (job: Job)
      ensures Valid() && this.job == job && Value() == Start(job) && fresh(chunks)
    {
      this.job := job;
      chunks := new seq<Log>[Count(job)](i => []);
      nextRange, cancelled, firstFailure, logs := 0, false, None, job.budget;
      workers := seq(if Count(job) < DISCOVERY_CONCURRENCY then Count(job) else DISCOVERY_CONCURRENCY, i => Idle);
      claims, stored := [], {};
      new;
      StartIsInv(job);
      assert Value() == Start(job);
    }

    /** The `catch` of a worker: the first failure is kept, and no further range is handed out. */
    method Stop(w: nat, code: string)
      requires Sized() && w < |workers|
      modifies this`cancelled, this`firstFailure, this`workers
      ensures Sized() && Value() == Fail(old(Value()), w, code)
    {
      cancelled := true;
      if firstFailure.None? {
        firstFailure := Some(code);
      }
      workers := workers[w := Done];
    }

    /** An idle worker claims the next range, or stops. */
    method Claim(w: nat)
      requires Sized() && w < |workers| && workers[w].Idle?
      modifies this`nextRange, this`workers, this`claims
      ensures Sized() && Value() == Step(job, old(Value()), w, None)
    {
      if cancelled {
        workers := workers[w := Done];
        return;
      }
      var index := nextRange;
      nextRange := nextRange + 1;
      if index >= chunks.Length {
        workers := workers[w := Done];
        return;
      }
      claims := claims + [index];
      workers := workers[w := Fetching(index)];
    }

    /** The remote read of a worker answers. */
    method Receive(w: nat, transport: Option<string>)
      requires Sized() && w < |workers| && workers[w].Fetching? && workers[w].index < chunks.Length
      modifies this, chunks
      ensures Sized() && Value() == Step(job, old(Value()), w, transport)
    {
      hide Raw, Decoded, Count;
      var index := workers[w].index;
      if transport.Some? {
        Stop(w, transport.value);
        return;
      }
      if |Raw(job, index)| > MAX_DISCOVERY_RAW_LOGS_PER_CHUNK {
        Stop(w, "candidate_limit");
        return;
      }
      var decoded := Decoded(job, index);
      logs := logs + |decoded|;
      if logs > MAX_DISCOVERY_LOGS {
        Stop(w, "candidate_limit");
        return;
      }
      ghost var before := old(Value()).chunks;
      chunks[index] := decoded;
      stored := stored + {index};
      assert Value().chunks == before[index := decoded];
      workers := workers[w := Idle];
    }

    method Turn(w: nat, transport: Option<string>)
      requires Valid() && w < |workers|
      modifies this, chunks
      ensures Valid() && Value() == Step(job, old(Value()), w, transport)
    {
      hide Inv, Raw, Decoded, Count;
      StepKeepsInv(job, Value(), w, transport);
      IndicesAreRanges(job, Value());
      match workers[w]
      case Idle => Claim(w);
      case Fetching(_) => Receive(w, transport);
      case Done =>
    }

    /** `chunks.flat()`, once every worker has stopped. */
    method Result() returns (r: Result<seq<Log>, string>)
      requires Valid()
      ensures r == Returned(job, Value())
    {
      if firstFailure.Some? {
        return Err(firstFailure.value);
      }
      var flat: seq<Log> := [];
      for i := 0 to chunks.Length
        invariant flat == Flat(Value().chunks, i)
      {
        flat := flat + chunks[i];
      }
      return Ok(flat);
    }
  }
}
