/**
 The single-threaded engine of resperf: one loop that moves through the ramp, sustain and wait phases,
 sends at most one query per round when the schedule is ahead of what has been sent, handles at most one
 response, and retires queries that are too old.

 Two fields of `State` are bookkeeping for the proofs only: `lost` counts retired queries by the bucket they
 were sent in, and `late` counts queries sent at or after the end of the traffic time.
 */
module Resperf {
  import opened IscList
  import opened QueryPool
  import opened PoolPasses
  import opened Sums

  const MILLION: real := 1000000.0

  datatype Config = Config(
    nqids: nat, rampTime: nat, sustainTime: nat, waitTime: nat, timeout: nat, bucketInterval: nat, maxQps: real)
  {
    function TrafficTime(): nat { rampTime + sustainTime }

    function EndTime(): nat { TrafficTime() + waitTime }

    function NBuckets(): nat
      requires bucketInterval > 0
    {
      (TrafficTime() + bucketInterval - 1) / bucketInterval
    }
  }

  predicate ValidConfig(cfg: Config) {
    cfg.TrafficTime() > 0 && cfg.bucketInterval > 0 && cfg.maxQps >= 0.0
  }

  datatype Phase = Ramp | Sustain | Wait

  datatype Bucket = Bucket(queries: nat, responses: nat, failures: nat, latencySum: real)

  datatype State = State(
    pool: Pool, buckets: seq<Bucket>, phase: Phase,
    numSent: nat, numOutstanding: int, numTimedOut: nat,
    now: nat, start: nat, waitBegan: nat,
    lost: seq<nat>, late: nat)

  function Elapsed(s: State): nat {
    if s.now >= s.start then s.now - s.start else 0
  }

  function Begin(cfg: Config, now: nat): State
    requires ValidConfig(cfg)
  {
    State(Initial(cfg.nqids), seq(cfg.NBuckets(), _ => Bucket(0, 0, 0, 0.0)), Ramp, 0, 0, 0, now, now, 0,
          seq(cfg.NBuckets(), _ => 0), 0)
  }

  /** find_bucket */
  function FindBucket(cfg: Config, start: nat, when: nat): nat
    requires ValidConfig(cfg)
  {
    var sentAt := if when >= start then when - start else 0;
    var i := (cfg.NBuckets() * sentAt) / cfg.TrafficTime();
    if i > cfg.NBuckets() - 1 then cfg.NBuckets() - 1 else i
  }

  /** What the outside does in one round. */
  datatype Send = Built | BuildFailed | SendFailed
  datatype Reply = NoReply | Reply(qid: nat, short: bool, rcode: nat)
  datatype Round = Round(send: Send, reply: Reply, clock: nat)

  /** dns_rcode_noerror or dns_rcode_nxdomain */
  predicate Answered(rcode: nat) {
    rcode == 0 || rcode == 3
  }

  /** num_scheduled before it is cut to an integer, phase by phase */
  function RampTarget(cfg: Config, t: nat): real {
    if cfg.rampTime == 0 then 0.0
    else 0.5 * cfg.maxQps * (t as real) * (t as real) / ((cfg.rampTime as real) * MILLION)
  }

  function SustainTarget(cfg: Config, t: nat): real {
    0.5 * cfg.maxQps * ((cfg.rampTime as real) / MILLION)
    + cfg.maxQps * ((t as real) - (cfg.rampTime as real)) / MILLION
  }

  function NumScheduled(cfg: Config, phase: Phase, t: nat): int {
    if phase.Ramp? then RampTarget(cfg, t).Floor else SustainTarget(cfg, t).Floor
  }

  /** The switch at the top of the loop; None ends the program. */
  datatype Switched = Exit | Go(phase: Phase)

  function Switch(cfg: Config, phase: Phase, t: nat): Switched {
    match phase
    case Ramp => Go(if t >= cfg.rampTime then Sustain else Ramp)
    case Sustain => Go(if t >= cfg.TrafficTime() then Wait else Sustain)
    case Wait => if t >= cfg.EndTime() then Exit else Go(Wait)
  }

  function EnterWait(s: State): State {
    s.(phase := Wait, waitBegan := s.now)
  }

  /** What do_one_line does to the pool: an id is stamped before the send, and moved if it succeeds. */
  function SendPool(p: Pool, send: Send, now: nat): Pool {
    if p.unused == [] || send.BuildFailed? then p
    else if send.SendFailed? then Stamped(p, p.unused[0], At(now))
    else QueryMove(Stamped(p, p.unused[0], At(now)), p.unused[0], PrependOutstanding)
  }

  /** do_one_line, and the counting of the query in its bucket; an empty list of ids ends the traffic */
  function SendOne(cfg: Config, s: State, send: Send): State
    requires ValidConfig(cfg)
  {
    var s1 := s.(pool := SendPool(s.pool, send, s.now));
    if s.pool.unused == [] then EnterWait(s1)
    else if !send.Built? then s1
    else
      s1.(numSent := s.numSent + 1, numOutstanding := s.numOutstanding + 1,
          buckets := CountQuery(s.buckets, FindBucket(cfg, s.start, s.now)),
          late := s.late + if Elapsed(s) >= cfg.TrafficTime() then 1 else 0)
  }

  function CountQuery(bs: seq<Bucket>, b: nat): seq<Bucket> {
    if b < |bs| then bs[b := bs[b].(queries := bs[b].queries + 1)] else bs
  }

  function CountReply(bs: seq<Bucket>, b: nat, answered: bool, latency: real): seq<Bucket> {
    if b < |bs| then
      bs[b := bs[b].(responses := bs[b].responses + 1,
                     failures := bs[b].failures + (if answered then 0 else 1),
                     latencySum := bs[b].latencySum + latency)]
    else bs
  }

  function When(p: Pool, q: int): nat {
    if IsSent(p, q) then p.stamp[q].when else 0
  }

  /** try_process_response */
  function HandleReply(cfg: Config, s: State, r: Reply): State
    requires ValidConfig(cfg)
  {
    if r.NoReply? || r.short || r.qid !in s.pool.outstanding then s
    else
      var when := When(s.pool, r.qid);
      var latency := ((s.now - when) as real) / MILLION;
      s.(pool := QueryMove(s.pool, r.qid, AppendUnused), numOutstanding := s.numOutstanding - 1,
         buckets := CountReply(s.buckets, FindBucket(cfg, s.start, when), Answered(r.rcode), latency))
  }

  /** The retired queries, counted into the buckets they were sent in. */
  function Lose(cfg: Config, start: nat, p: Pool, cutoff: int, lost: seq<nat>): seq<nat>
    requires ValidConfig(cfg)
    decreases |p.outstanding|
  {
    if p.outstanding == [] || !Old(p, Tail(p), cutoff) then lost
    else
      var b := FindBucket(cfg, start, When(p, Tail(p)));
      Lose(cfg, start, DropTail(p), cutoff, if b < |lost| then lost[b := lost[b] + 1] else lost)
  }

  /** retire_old_queries */
  function Retire(cfg: Config, s: State): State
    requires ValidConfig(cfg)
  {
    var cutoff := s.now - cfg.timeout;
    var n := RetireTail(s.pool, cutoff).1;
    s.(pool := RetireTail(s.pool, cutoff).0, numOutstanding := s.numOutstanding - n, numTimedOut := s.numTimedOut + n,
       lost := Lose(cfg, s.start, s.pool, cutoff, s.lost))
  }

  /** The sending part of a round, after the switch. */
  function Traffic(cfg: Config, s: State, send: Send): State
    requires ValidConfig(cfg)
  {
    if s.phase.Wait? then s
    else
      var shouldSend := NumScheduled(cfg, s.phase, Elapsed(s)) - s.numSent;
      var s1 := if shouldSend >= 1000 then EnterWait(s) else s;
      if shouldSend > 0 then SendOne(cfg, s1, send) else s1
  }

  /** One round of the loop of main, once the switch has not ended it. */
  function Step(cfg: Config, s: State, r: Round): State
    requires ValidConfig(cfg) && Switch(cfg, s.phase, Elapsed(s)).Go?
  {
    Retire(cfg, HandleReply(cfg, Traffic(cfg, AfterSwitch(cfg, s), r.send), r.reply)).(now := r.clock)
  }

  /** A run: the clock never goes back, and the loop has not ended. */
  predicate Legal(cfg: Config, s: State, run: seq<Round>)
    requires ValidConfig(cfg)
    decreases |run|
  {
    run == [] || (s.now <= run[0].clock && Switch(cfg, s.phase, Elapsed(s)).Go? && Legal(cfg, Step(cfg, s, run[0]), run[1..]))
  }

  function Exec(cfg: Config, s: State, run: seq<Round>): State
    requires ValidConfig(cfg) && Legal(cfg, s, run)
    decreases |run|
  {
    if run == [] then s else Exec(cfg, Step(cfg, s, run[0]), run[1..])
  }

  /** How many of the listed queries were sent in bucket b. */
  function CountIn(cfg: Config, start: nat, p: Pool, s: seq<int>, b: nat): nat
    requires ValidConfig(cfg)
  {
    if s == [] then 0
    else (if FindBucket(cfg, start, When(p, s[0])) == b then 1 else 0) + CountIn(cfg, start, p, s[1..], b)
  }

  lemma {:induction false} CountInWithout(cfg: Config, start: nat, p: Pool, s: seq<int>, q: int, b: nat)
    requires ValidConfig(cfg) && q in s
    ensures CountIn(cfg, start, p, s, b)
      == CountIn(cfg, start, p, Without(s, q), b) + if FindBucket(cfg, start, When(p, q)) == b then 1 else 0
  {
    if s[0] != q {
      CountInWithout(cfg, start, p, s[1..], q, b);
    }
  }

  lemma {:induction false} CountInFrame(cfg: Config, start: nat, p: Pool, p': Pool, s: seq<int>, b: nat)
    requires ValidConfig(cfg) && forall q :: q in s ==> When(p, q) == When(p', q)
    ensures CountIn(cfg, start, p, s, b) == CountIn(cfg, start, p', s, b)
  {
    if s != [] {
      CountInFrame(cfg, start, p, p', s[1..], b);
    }
  }

  function SumQueries(bs: seq<Bucket>): nat {
    if bs == [] then 0 else bs[0].queries + SumQueries(bs[1..])
  }

  lemma {:induction false} SumQueriesAt(bs: seq<Bucket>, b: nat, x: Bucket)
    requires b < |bs|
    ensures SumQueries(bs[b := x]) == SumQueries(bs) - bs[b].queries + x.queries
  {
    if b == 0 {
      assert bs[b := x][1..] == bs[1..];
    } else {
      SumQueriesAt(bs[1..], b - 1, x);
      assert bs[b := x][1..] == bs[1..][b - 1 := x];
    }
  }

  /** Every query counted in a bucket has been answered, has been retired, or is still outstanding. */
  ghost predicate BucketsBalance(cfg: Config, s: State)
    requires ValidConfig(cfg)
  {
    && |s.buckets| == |s.lost| == cfg.NBuckets()
    && (forall b :: 0 <= b < |s.buckets| ==>
          s.buckets[b].queries == s.buckets[b].responses + s.lost[b] + CountIn(cfg, s.start, s.pool, s.pool.outstanding, b))
    && (forall b :: 0 <= b < |s.buckets| ==> s.buckets[b].failures <= s.buckets[b].responses)
    && SumQueries(s.buckets) == s.numSent && Sum(s.lost) == s.numTimedOut
  }

  ghost predicate PoolOk(cfg: Config, s: State) {
    && Sound(s.pool, s.now) && |s.pool.stamp| == cfg.nqids && s.start <= s.now
    && (forall q :: q in s.pool.outstanding ==> IsSent(s.pool, q))
    && s.numOutstanding == |s.pool.outstanding|
  }

  ghost predicate Inv(cfg: Config, s: State)
    requires ValidConfig(cfg)
  {
    PoolOk(cfg, s) && BucketsBalance(cfg, s)
  }

  /** The pool after the first unused id has been sent: it is at the head of the outstanding list. */
  lemma SentShape(p: Pool, now: nat)
    requires Partition(p) && p.unused != []
    ensures var q := p.unused[0];
      && 0 <= q < |p.stamp| && q !in p.outstanding
      && QueryMove(Stamped(p, q, At(now)), q, PrependOutstanding)
         == Pool(p.unused[1..], [q] + p.outstanding, p.stamp[q := At(now)])
      && Partition(QueryMove(Stamped(p, q, At(now)), q, PrependOutstanding))
  {
    var q := p.unused[0];
    assert q in p.unused;
    QueryMovePartition(Stamped(p, q, At(now)), q, PrependOutstanding);
    WithoutOther(p.outstanding, q);
  }

  lemma SentSound(p: Pool, now: nat)
    requires Sound(p, now) && p.unused != [] && (forall q :: q in p.outstanding ==> IsSent(p, q))
    ensures var p' := QueryMove(Stamped(p, p.unused[0], At(now)), p.unused[0], PrependOutstanding);
      Sound(p', now) && forall q :: q in p'.outstanding ==> IsSent(p', q)
  {
    SentShape(p, now);
    var q0, s := p.unused[0], p.outstanding;
    var p' := QueryMove(Stamped(p, q0, At(now)), q0, PrependOutstanding);
    assert forall q :: q in s ==> q != q0 && p'.stamp[q] == p.stamp[q];
    forall i, j | 0 <= i < j < |p'.outstanding| ensures Newer(p', p'.outstanding[i], p'.outstanding[j]) {
      assert p'.outstanding[j] == s[j - 1] && s[j - 1] in s;
      if i > 0 {
        assert p'.outstanding[i] == s[i - 1] && s[i - 1] in s && Newer(p, s[i - 1], s[j - 1]);
      }
    }
  }

  lemma SendOnePool(cfg: Config, s: State, send: Send)
    requires ValidConfig(cfg) && PoolOk(cfg, s)
    ensures PoolOk(cfg, SendOne(cfg, s, send))
  {
    if s.pool.unused != [] {
      SentShape(s.pool, s.now);
      if send.Built? {
        SentSound(s.pool, s.now);
      } else if send.SendFailed? {
        StampSound(s.pool, s.now, s.pool.unused[0]);
      }
    }
  }

  lemma SendOneBuckets(cfg: Config, s: State, send: Send)
    requires ValidConfig(cfg) && Inv(cfg, s)
    ensures BucketsBalance(cfg, SendOne(cfg, s, send))
  {
    var s' := SendOne(cfg, s, send);
    if s.pool.unused != [] && !send.BuildFailed? {
      SentShape(s.pool, s.now);
      var out := s.pool.outstanding;
      forall b | 0 <= b < |s.buckets|
        ensures CountIn(cfg, s.start, s.pool, out, b) == CountIn(cfg, s.start, s'.pool, out, b)
      {
        CountInFrame(cfg, s.start, s.pool, s'.pool, out, b);
      }
      if send.Built? {
        var b := FindBucket(cfg, s.start, s.now);
        SumQueriesAt(s.buckets, b, s.buckets[b].(queries := s.buckets[b].queries + 1));
      }
    }
  }

  lemma HandleReplyPool(cfg: Config, s: State, r: Reply)
    requires ValidConfig(cfg) && PoolOk(cfg, s)
    ensures PoolOk(cfg, HandleReply(cfg, s, r))
  {
    if !(r.NoReply? || r.short || r.qid !in s.pool.outstanding) {
      RemoveSound(s.pool, s.now, r.qid, AppendUnused);
    }
  }

  lemma HandleReplyBuckets(cfg: Config, s: State, r: Reply)
    requires ValidConfig(cfg) && Inv(cfg, s)
    ensures BucketsBalance(cfg, HandleReply(cfg, s, r))
  {
    var s' := HandleReply(cfg, s, r);
    if !(r.NoReply? || r.short || r.qid !in s.pool.outstanding) {
      forall b | 0 <= b < |s.buckets|
        ensures CountIn(cfg, s.start, s.pool, s.pool.outstanding, b) == CountIn(cfg, s.start, s'.pool, s'.pool.outstanding, b)
          + if FindBucket(cfg, s.start, When(s.pool, r.qid)) == b then 1 else 0
      {
        CountInWithout(cfg, s.start, s.pool, s.pool.outstanding, r.qid, b);
        CountInFrame(cfg, s.start, s.pool, s'.pool, s'.pool.outstanding, b);
      }
      var b := FindBucket(cfg, s.start, When(s.pool, r.qid));
      SumQueriesAt(s.buckets, b, s'.buckets[b]);
    }
  }

  lemma {:induction false} LoseSum(cfg: Config, start: nat, p: Pool, cutoff: int, lost: seq<nat>)
    requires ValidConfig(cfg) && |lost| == cfg.NBuckets()
    ensures |Lose(cfg, start, p, cutoff, lost)| == |lost|
    ensures Sum(Lose(cfg, start, p, cutoff, lost)) == Sum(lost) + RetireTail(p, cutoff).1
    decreases |p.outstanding|
  {
    if p.outstanding != [] && Old(p, Tail(p), cutoff) {
      var b := FindBucket(cfg, start, When(p, Tail(p)));
      LoseSum(cfg, start, DropTail(p), cutoff, lost[b := lost[b] + 1]);
      SumAt(lost, b, lost[b] + 1);
    }
  }

  lemma DropTailCount(cfg: Config, start: nat, p: Pool, b: nat)
    requires ValidConfig(cfg) && Partition(p) && p.outstanding != []
    ensures CountIn(cfg, start, p, p.outstanding, b)
      == CountIn(cfg, start, DropTail(p), DropTail(p).outstanding, b) + if FindBucket(cfg, start, When(p, Tail(p))) == b then 1 else 0
  {
    MoveTail(p);
    WithoutAt(p.outstanding, |p.outstanding| - 1);
    CountInWithout(cfg, start, p, p.outstanding, Tail(p), b);
    CountInFrame(cfg, start, p, DropTail(p), DropTail(p).outstanding, b);
  }

  /** What leaves the outstanding list in a timeout scan is what the lost counts gain, bucket by bucket. */
  lemma {:induction false} LoseBalances(cfg: Config, start: nat, p: Pool, cutoff: int, lost: seq<nat>, b: nat)
    requires ValidConfig(cfg) && b < |lost| == cfg.NBuckets() && Partition(p)
    ensures |Lose(cfg, start, p, cutoff, lost)| == |lost|
    ensures Lose(cfg, start, p, cutoff, lost)[b]
      + CountIn(cfg, start, RetireTail(p, cutoff).0, RetireTail(p, cutoff).0.outstanding, b)
      == lost[b] + CountIn(cfg, start, p, p.outstanding, b)
    decreases |p.outstanding|
  {
    if p.outstanding != [] && Old(p, Tail(p), cutoff) {
      var c := FindBucket(cfg, start, When(p, Tail(p)));
      MoveTail(p);
      QueryMovePartition(p, Tail(p), AppendUnused);
      LoseBalances(cfg, start, DropTail(p), cutoff, lost[c := lost[c] + 1], b);
      DropTailCount(cfg, start, p, b);
    }
  }

  lemma {:induction false} RetireTailLength(p: Pool, cutoff: int)
    ensures |RetireTail(p, cutoff).0.outstanding| + RetireTail(p, cutoff).1 == |p.outstanding|
    decreases |p.outstanding|
  {
    if p.outstanding != [] && Old(p, Tail(p), cutoff) {
      RetireTailLength(DropTail(p), cutoff);
    }
  }

  lemma RetirePool(cfg: Config, s: State)
    requires ValidConfig(cfg) && PoolOk(cfg, s)
    ensures PoolOk(cfg, Retire(cfg, s))
  {
    RetireTailSound(s.pool, s.now, s.now - cfg.timeout);
    RetireTailLength(s.pool, s.now - cfg.timeout);
  }

  lemma RetireBuckets(cfg: Config, s: State)
    requires ValidConfig(cfg) && Inv(cfg, s)
    ensures BucketsBalance(cfg, Retire(cfg, s))
  {
    var s', cutoff := Retire(cfg, s), s.now - cfg.timeout;
    LoseSum(cfg, s.start, s.pool, cutoff, s.lost);
    forall b | 0 <= b < |s.lost|
      ensures s'.lost[b] + CountIn(cfg, s.start, s'.pool, s'.pool.outstanding, b)
        == s.lost[b] + CountIn(cfg, s.start, s.pool, s.pool.outstanding, b)
    {
      LoseBalances(cfg, s.start, s.pool, cutoff, s.lost, b);
    }
  }

  lemma BeginInv(cfg: Config, now: nat)
    requires ValidConfig(cfg)
    ensures Inv(cfg, Begin(cfg, now))
  {
    InitialPartition(cfg.nqids);
    ZeroSums(cfg.NBuckets());
  }

  lemma {:induction false} ZeroSums(n: nat)
    ensures SumQueries(seq(n, _ => Bucket(0, 0, 0, 0.0))) == 0 && Sum(seq(n, _ => 0)) == 0
  {
    SumZero(n);
    if n > 0 {
      ZeroSums(n - 1);
      assert seq(n, _ => Bucket(0, 0, 0, 0.0))[1..] == seq(n - 1, _ => Bucket(0, 0, 0, 0.0));
    }
  }

  /** The phases only move forward. */
  function Rank(p: Phase): nat {
    match p case Ramp => 0 case Sustain => 1 case Wait => 2
  }

  /** The state after the switch at the top of the loop. */
  function AfterSwitch(cfg: Config, s: State): State
    requires Switch(cfg, s.phase, Elapsed(s)).Go?
  {
    var phase := Switch(cfg, s.phase, Elapsed(s)).phase;
    if phase.Wait? && !s.phase.Wait? then EnterWait(s) else s.(phase := phase)
  }

  lemma HandleReplyInv(cfg: Config, s: State, r: Reply)
    requires ValidConfig(cfg) && Inv(cfg, s)
    ensures Inv(cfg, HandleReply(cfg, s, r))
  {
    HandleReplyPool(cfg, s, r);
    HandleReplyBuckets(cfg, s, r);
  }

  lemma RetireInv(cfg: Config, s: State)
    requires ValidConfig(cfg) && Inv(cfg, s)
    ensures Inv(cfg, Retire(cfg, s))
  {
    RetirePool(cfg, s);
    RetireBuckets(cfg, s);
  }

  lemma ClockInv(cfg: Config, s: State, clock: nat)
    requires ValidConfig(cfg) && Inv(cfg, s) && s.now <= clock
    ensures Inv(cfg, s.(now := clock))
  {
  }

  lemma SwitchInv(cfg: Config, s: State)
    requires ValidConfig(cfg) && Inv(cfg, s) && Switch(cfg, s.phase, Elapsed(s)).Go?
    ensures Inv(cfg, AfterSwitch(cfg, s))
  {
  }

  lemma ClockKept(cfg: Config, s: State, r: Round)
    requires ValidConfig(cfg) && Switch(cfg, s.phase, Elapsed(s)).Go?
    ensures Retire(cfg, HandleReply(cfg, Traffic(cfg, AfterSwitch(cfg, s), r.send), r.reply)).now == s.now
  {
  }

  lemma StepInv(cfg: Config, s: State, r: Round)
    requires ValidConfig(cfg) && Inv(cfg, s) && Switch(cfg, s.phase, Elapsed(s)).Go? && s.now <= r.clock
    ensures Inv(cfg, Step(cfg, s, r))
  {
    SwitchInv(cfg, s);
    var s1 := AfterSwitch(cfg, s);
    TrafficInv(cfg, s1, r.send);
    var s2 := Traffic(cfg, s1, r.send);
    HandleReplyInv(cfg, s2, r.reply);
    var s3 := HandleReply(cfg, s2, r.reply);
    RetireInv(cfg, s3);
    ClockKept(cfg, s, r);
    ClockInv(cfg, Retire(cfg, s3), r.clock);
  }

  lemma TrafficInv(cfg: Config, s: State, send: Send)
    requires ValidConfig(cfg) && Inv(cfg, s)
    ensures Inv(cfg, Traffic(cfg, s, send))
  {
    if !s.phase.Wait? {
      var s1 := if NumScheduled(cfg, s.phase, Elapsed(s)) - s.numSent >= 1000 then EnterWait(s) else s;
      SendOnePool(cfg, s1, send);
      SendOneBuckets(cfg, s1, send);
    }
  }

  lemma {:induction false} RunInv(cfg: Config, s: State, run: seq<Round>)
    requires ValidConfig(cfg) && Inv(cfg, s) && Legal(cfg, s, run)
    ensures Inv(cfg, Exec(cfg, s, run))
    decreases |run|
  {
    if run != [] {
      StepInv(cfg, s, run[0]);
      RunInv(cfg, Step(cfg, s, run[0]), run[1..]);
    }
  }

  /**
   For every run and every bucket: queries are responses plus retired plus still outstanding, so failures are at
   most responses and responses at most queries; the buckets add up to the queries sent, and the counter of
   outstanding queries is the length of the list.
   */
  lemma Buckets(cfg: Config, now: nat, run: seq<Round>)
    requires ValidConfig(cfg) && Legal(cfg, Begin(cfg, now), run)
    ensures var s := Exec(cfg, Begin(cfg, now), run);
      && BucketsBalance(cfg, s) && s.numOutstanding == |s.pool.outstanding|
      && (forall b :: 0 <= b < |s.buckets| ==>
            s.buckets[b].failures <= s.buckets[b].responses <= s.buckets[b].queries)
      && NewestFirst(s.pool, s.pool.outstanding)
  {
    BeginInv(cfg, now);
    RunInv(cfg, Begin(cfg, now), run);
  }

  /** After a round no query of age `timeout` is left, by the clock of that round; nothing younger was retired. */
  lemma RetireIsExact(cfg: Config, s: State)
    requires ValidConfig(cfg) && Inv(cfg, s)
    ensures forall q :: q in Retire(cfg, s).pool.outstanding <==>
      q in s.pool.outstanding && s.now - When(s.pool, q) < cfg.timeout
  {
    RetireTailLeavesNoneOld(s.pool, s.now, s.now - cfg.timeout);
  }

  /** The schedule: quadratic up to the end of the ramp, then linear. */
  function Target(cfg: Config, t: nat): real {
    if t < cfg.rampTime then RampTarget(cfg, t) else SustainTarget(cfg, t)
  }

  lemma TargetContinuous(cfg: Config)
    requires cfg.rampTime > 0
    ensures RampTarget(cfg, cfg.rampTime) == SustainTarget(cfg, cfg.rampTime)
  {
    var q, r := cfg.maxQps, cfg.rampTime as real;
    assert (0.5 * q * r * r) / (r * MILLION) == 0.5 * q * (r / MILLION) by {
      assert (0.5 * q * r * r) == (0.5 * q * (r / MILLION)) * (r * MILLION);
    }
  }

  lemma SquareGrows(k: real, a: real, b: real, d: real)
    requires k >= 0.0 && 0.0 <= a <= b && d > 0.0
    ensures k * a * a / d <= k * b * b / d
  {
    assert k * a <= k * b;
    assert (k * a) * a <= (k * a) * b <= (k * b) * b;
  }

  lemma LineGrows(k: real, a: real, b: real)
    requires k >= 0.0 && a <= b
    ensures k * a / MILLION <= k * b / MILLION
  {
    assert k * a <= k * b;
  }

  /** The schedule never goes down. */
  lemma TargetGrows(cfg: Config, t: nat, u: nat)
    requires cfg.maxQps >= 0.0 && t <= u
    ensures Target(cfg, t) <= Target(cfg, u)
  {
    var r := cfg.rampTime;
    if t < r {
      var m := if u < r then u else r;
      SquareGrows(0.5 * cfg.maxQps, t as real, m as real, (r as real) * MILLION);
      assert RampTarget(cfg, t) <= RampTarget(cfg, m);
      TargetContinuous(cfg);
    }
    if u >= r {
      var m := if t < r then r else t;
      LineGrows(cfg.maxQps, (m as real) - (r as real), (u as real) - (r as real));
      assert SustainTarget(cfg, m) <= SustainTarget(cfg, u);
    }
  }

  /** What has been sent is within the schedule, and at most one query is sent after the traffic time. */
  ghost predicate OnSchedule(cfg: Config, s: State) {
    && (s.phase.Sustain? ==> Elapsed(s) >= cfg.rampTime)
    && s.numSent <= Target(cfg, Elapsed(s)).Floor
    && s.late <= 1 && (s.late == 1 ==> !s.phase.Ramp? && Elapsed(s) >= cfg.TrafficTime())
    && s.numSent - s.late <= Target(cfg, cfg.TrafficTime()).Floor
  }

  lemma TargetFloorGrows(cfg: Config, t: nat, u: nat)
    requires cfg.maxQps >= 0.0 && t <= u
    ensures Target(cfg, t).Floor <= Target(cfg, u).Floor
  {
    TargetGrows(cfg, t, u);
  }

  lemma TrafficOnSchedule(cfg: Config, s: State, send: Send)
    requires ValidConfig(cfg) && OnSchedule(cfg, s) && Switch(cfg, s.phase, Elapsed(s)).Go? && s.start <= s.now
    ensures var s' := Traffic(cfg, AfterSwitch(cfg, s), send);
      && OnSchedule(cfg, s') && s'.now == s.now && s'.start == s.start && Rank(s'.phase) >= Rank(s.phase)
  {
    var s1 := AfterSwitch(cfg, s);
    var t := Elapsed(s);
    if !s1.phase.Wait? {
      assert NumScheduled(cfg, s1.phase, t) == Target(cfg, t).Floor;
      if t < cfg.TrafficTime() {
        TargetFloorGrows(cfg, t, cfg.TrafficTime());
      }
    }
  }

  lemma StepOnSchedule(cfg: Config, s: State, r: Round)
    requires ValidConfig(cfg) && OnSchedule(cfg, s) && Switch(cfg, s.phase, Elapsed(s)).Go? && s.start <= s.now <= r.clock
    ensures OnSchedule(cfg, Step(cfg, s, r)) && Step(cfg, s, r).start == s.start <= Step(cfg, s, r).now
    ensures Rank(Step(cfg, s, r).phase) >= Rank(s.phase)
  {
    TrafficOnSchedule(cfg, s, r.send);
    TargetFloorGrows(cfg, Elapsed(s), Elapsed(Step(cfg, s, r)));
  }

  lemma {:induction false} RunOnSchedule(cfg: Config, s: State, run: seq<Round>)
    requires ValidConfig(cfg) && OnSchedule(cfg, s) && s.start <= s.now && Legal(cfg, s, run)
    ensures OnSchedule(cfg, Exec(cfg, s, run)) && Rank(Exec(cfg, s, run).phase) >= Rank(s.phase)
    decreases |run|
  {
    if run != [] {
      StepOnSchedule(cfg, s, run[0]);
      RunOnSchedule(cfg, Step(cfg, s, run[0]), run[1..]);
    }
  }

  /** No run sends more than the schedule allows by then, nor more than one query past its end. */
  lemma Schedule(cfg: Config, now: nat, run: seq<Round>)
    requires ValidConfig(cfg) && Legal(cfg, Begin(cfg, now), run)
    ensures var s := Exec(cfg, Begin(cfg, now), run);
      && s.numSent <= Target(cfg, Elapsed(s)).Floor
      && s.numSent <= Target(cfg, cfg.TrafficTime()).Floor + 1 && s.late <= 1
  {
    assert Target(cfg, 0) >= 0.0;
    TargetGrows(cfg, 0, cfg.TrafficTime());
    RunOnSchedule(cfg, Begin(cfg, now), run);
  }

  /** Once the clock has passed the end time, the loop ends in the third round at the latest. */
  lemma {:induction false} ExitsSoon(cfg: Config, s: State, run: seq<Round>)
    requires ValidConfig(cfg) && s.start <= s.now && Elapsed(s) >= cfg.EndTime() && Legal(cfg, s, run)
    ensures |run| + Rank(s.phase) <= 2
    decreases |run|
  {
    if run != [] {
      var s' := Step(cfg, s, run[0]);
      assert Rank(s'.phase) > Rank(s.phase) && s'.start == s.start && s'.now == run[0].clock;
      ExitsSoon(cfg, s', run[1..]);
    }
  }
}
