/**
 Runs of the dnsperf protocol in which the receiver interferes, for every configuration: the counters go out of
 balance, and the sender can be left without an id.
 */
module DnsperfRaces {
  import opened IscList
  import opened QueryPool
  import opened PoolPasses
  import opened Dnsperf
  import opened DnsperfSupply

  lemma OneMore(cfg: Config, s: State, step: Step, rest: seq<Step>, s': State)
    requires CanStep(cfg, s, step) && Apply(cfg, s, step) == s' && Legal(cfg, s', rest)
    ensures Legal(cfg, s, [step] + rest) && Exec(cfg, s, [step] + rest) == Exec(cfg, s', rest)
    ensures Skew(cfg, s, [step] + rest) == StepSkew(s, step) + Skew(cfg, s', rest)
    ensures Strays(cfg, s, [step] + rest) == (if IsStray(cfg, s, step) then 1 else 0) + Strays(cfg, s', rest)
  {
    assert ([step] + rest)[1..] == rest;
  }

  lemma {:induction false} RunsJoin(cfg: Config, s: State, a: seq<Step>, b: seq<Step>)
    requires Legal(cfg, s, a) && Legal(cfg, Exec(cfg, s, a), b)
    ensures Legal(cfg, s, a + b) && Exec(cfg, s, a + b) == Exec(cfg, Exec(cfg, s, a), b)
    ensures Strays(cfg, s, a + b) == Strays(cfg, s, a) + Strays(cfg, Exec(cfg, s, a), b)
    decreases |a|
  {
    if a == [] {
      assert a + b == b;
    } else {
      assert (a + b)[1..] == a[1..] + b;
      RunsJoin(cfg, Apply(cfg, s, a[0]), a[1..], b);
    }
  }

  /** The state in which an id has been taken and its old time cleared. */
  function Taken(s: State): State
    requires s.pool.unused != []
  {
    s.(pool := ReserveHead(s.pool), sender := Reserved(s.pool.unused[0]))
  }

  lemma TakeRun(cfg: Config, s: State, rest: seq<Step>)
    requires CanStep(cfg, s, Reserve) && Legal(cfg, Taken(s), rest)
    ensures Legal(cfg, s, [Reserve, ClearStamp] + rest)
    ensures Exec(cfg, s, [Reserve, ClearStamp] + rest) == Exec(cfg, Taken(s), rest)
    ensures Skew(cfg, s, [Reserve, ClearStamp] + rest) == Skew(cfg, Taken(s), rest)
    ensures Strays(cfg, s, [Reserve, ClearStamp] + rest) == Strays(cfg, Taken(s), rest)
  {
    var s1 := Apply(cfg, s, Reserve);
    OneMore(cfg, s1, ClearStamp, rest, Taken(s));
    OneMore(cfg, s, Reserve, [ClearStamp] + rest, s1);
    assert [Reserve] + ([ClearStamp] + rest) == [Reserve, ClearStamp] + rest;
  }

  /** An id that is the only outstanding one goes, and comes back to the unused list. */
  lemma OnlyOne(p: Pool, q: int, cutoff: int)
    requires p.outstanding == [q]
    ensures QueryMove(p, q, AppendUnused).outstanding == []
    ensures RetireFrom(p, q, cutoff) == (QueryMove(p, q, AppendUnused), 1)
  {
  }

  /** The first query fails to go out, times out before the sender takes its id back, and is then uncounted. */
  function LostSend(cfg: Config): seq<Step> {
    [Reserve, ClearStamp] + [SendError, Tick(cfg.timeout), Peek(cfg.timeout), Retire, TakeBack, Retract]
  }

  lemma FirstTaken(cfg: Config, s: State)
    requires s.pool == Initial(cfg.nqids) && cfg.nqids > 0
    ensures s.pool.unused != [] && s.pool.unused[0] == 0
    ensures Taken(s).pool.outstanding == [0] && |Taken(s).pool.stamp| == cfg.nqids
  {
    InitialPartition(cfg.nqids);
    ReserveHeadShape(s.pool);
  }

  lemma LostSendTail(cfg: Config, s: State)
    requires s.sender == Failed(0) && s.receiver.Peeked? && s.receiver.q == 0
    requires s.pool.outstanding == [0] && IsSent(s.pool, 0)
    ensures var run := [Retire, TakeBack, Retract];
      && Legal(cfg, s, run) && Skew(cfg, s, run) == 1
      && Exec(cfg, s, run).sent == s.sent - 1 && Exec(cfg, s, run).timedout == s.timedout + 1
  {
    OnlyOne(s.pool, 0, Cutoff(s.receiver.now, cfg.timeout));
    var s4 := Apply(cfg, s, Retire);
    var s5 := Apply(cfg, s4, TakeBack);
    OneMore(cfg, s5, Retract, [], Apply(cfg, s5, Retract));
    OneMore(cfg, s4, TakeBack, [Retract], s5);
    OneMore(cfg, s, Retire, [TakeBack, Retract], s4);
  }

  lemma LostSendEnd(cfg: Config, s: State)
    requires s.sender == Reserved(0) && s.receiver.Listening? && s.clock == 0
    requires s.pool.outstanding == [0] && |s.pool.stamp| > 0
    ensures var run := [SendError, Tick(cfg.timeout), Peek(cfg.timeout), Retire, TakeBack, Retract];
      && Legal(cfg, s, run) && Skew(cfg, s, run) == 1
      && Exec(cfg, s, run).sent == s.sent && Exec(cfg, s, run).timedout == s.timedout + 1
  {
    var s1 := Apply(cfg, s, SendError);
    var s2 := s1.(clock := cfg.timeout);
    var s3 := s2.(receiver := Peeked(0, cfg.timeout));
    LostSendTail(cfg, s3);
    OneMore(cfg, s2, Peek(cfg.timeout), [Retire, TakeBack, Retract], s3);
    OneMore(cfg, s1, Tick(cfg.timeout), [Peek(cfg.timeout), Retire, TakeBack, Retract], s2);
    OneMore(cfg, s, SendError, [Tick(cfg.timeout), Peek(cfg.timeout), Retire, TakeBack, Retract], s1);
  }

  /** For every configuration that can send at all, that run is possible and leaves a timeout with no send to match. */
  lemma LostSendSkews(cfg: Config)
    requires ValidConfig(cfg) && cfg.maxOutstanding > 0
    ensures Legal(cfg, Start(cfg), LostSend(cfg)) && Skew(cfg, Start(cfg), LostSend(cfg)) == 1
    ensures Exec(cfg, Start(cfg), LostSend(cfg)).sent == 0 && Exec(cfg, Start(cfg), LostSend(cfg)).timedout == 1
  {
    FirstTaken(cfg, Start(cfg));
    LostSendEnd(cfg, Taken(Start(cfg)));
    TakeRun(cfg, Start(cfg), [SendError, Tick(cfg.timeout), Peek(cfg.timeout), Retire, TakeBack, Retract]);
  }

  /** The receiver looks at the first id between its move and the clearing of its time, and retires it unsent. */
  function LostReserve(cfg: Config): seq<Step> {
    [Tick(cfg.timeout), Reserve, Peek(cfg.timeout), ClearStamp, Retire, BuildFailed]
  }

  lemma LostReserveTail(cfg: Config, s: State)
    requires s.sender == Reserved(0) && s.receiver.Peeked? && s.receiver.q == 0
    requires s.pool.outstanding == [0] && !IsSent(s.pool, 0)
    ensures var run := [Retire, BuildFailed];
      && Legal(cfg, s, run) && Skew(cfg, s, run) == 1
      && Exec(cfg, s, run).sent == s.sent && Exec(cfg, s, run).timedout == s.timedout + 1
      && Exec(cfg, s, run).completed == s.completed
  {
    OnlyOne(s.pool, 0, Cutoff(s.receiver.now, cfg.timeout));
    var s1 := Apply(cfg, s, Retire);
    OneMore(cfg, s1, BuildFailed, [], Apply(cfg, s1, BuildFailed));
    OneMore(cfg, s, Retire, [BuildFailed], s1);
  }

  lemma LostReserveEnd(cfg: Config, s: State)
    requires s.sender == Taking(0) && s.receiver.Listening? && s.clock == cfg.timeout
    requires s.pool.outstanding == [0] && |s.pool.stamp| > 0 && s.pool.stamp[0] == At(0)
    ensures var run := [Peek(cfg.timeout), ClearStamp, Retire, BuildFailed];
      && Legal(cfg, s, run) && Skew(cfg, s, run) == 1
      && Exec(cfg, s, run).sent == s.sent && Exec(cfg, s, run).timedout == s.timedout + 1
      && Exec(cfg, s, run).completed == s.completed
  {
    var s1 := s.(receiver := Peeked(0, cfg.timeout));
    var s2 := Apply(cfg, s1, ClearStamp);
    LostReserveTail(cfg, s2);
    OneMore(cfg, s1, ClearStamp, [Retire, BuildFailed], s2);
    OneMore(cfg, s, Peek(cfg.timeout), [ClearStamp, Retire, BuildFailed], s1);
  }

  /** No send has failed, nothing has been sent, and one query has timed out: what the sender computes is 2^32 - 1. */
  lemma LostReserveSkews(cfg: Config)
    requires ValidConfig(cfg) && cfg.maxOutstanding > 0
    ensures Legal(cfg, Start(cfg), LostReserve(cfg)) && Skew(cfg, Start(cfg), LostReserve(cfg)) == 1
    ensures Exec(cfg, Start(cfg), LostReserve(cfg)).sent == 0 && Exec(cfg, Start(cfg), LostReserve(cfg)).timedout == 1
    ensures NumOutstanding(Exec(cfg, Start(cfg), LostReserve(cfg))) == 0xFFFF_FFFF
  {
    var s := Start(cfg);
    var s1 := Apply(cfg, s, Tick(cfg.timeout));
    FirstTaken(cfg, s1);
    var s2 := Apply(cfg, s1, Reserve);
    LostReserveEnd(cfg, s2);
    OneMore(cfg, s1, Reserve, [Peek(cfg.timeout), ClearStamp, Retire, BuildFailed], s2);
    OneMore(cfg, s, Tick(cfg.timeout), [Reserve, Peek(cfg.timeout), ClearStamp, Retire, BuildFailed], s1);
  }

  /** A query that goes out. */
  const SENT: seq<Step> := [Reserve, ClearStamp, SendOk]

  /** A send that fails, while a response to the same id is claimed. */
  function Claimed(q: nat): seq<Step> {
    [Reserve, ClearStamp] + [SendError, Claim([Response(q, false)]), TakeBack, Retract]
  }

  lemma SentRun(cfg: Config, s: State)
    requires CanStep(cfg, s, Reserve)
    ensures Legal(cfg, s, SENT) && Strays(cfg, s, SENT) == 0
    ensures Exec(cfg, s, SENT) ==
      s.(pool := Stamped(ReserveHead(s.pool), s.pool.unused[0], At(s.clock)), sent := s.sent + 1)
  {
    var s1 := Taken(s);
    OneMore(cfg, s1, SendOk, [], Apply(cfg, s1, SendOk));
    TakeRun(cfg, s, [SendOk]);
    assert [Reserve, ClearStamp] + [SendOk] == SENT;
  }

  /** The pool after a claimed failure: the lists are as before. */
  lemma ClaimedPool(p: Pool, clock: nat)
    requires Partition(p) && p.unused != []
    ensures var q := p.unused[0];
      var p1 := Stamped(ReserveHead(p), q, At(clock));
      && 0 <= q && Expected(p1, Response(q, false)) && q !in QueryMove(p1, q, AppendUnused).outstanding && ClaimAll(p1, [Response(q, false)]).1 == 1
      && ClaimAll(p1, [Response(q, false)]).0 == QueryMove(p1, q, AppendUnused)
      && QueryMove(QueryMove(p1, q, AppendUnused), q, PrependUnused) == Stamped(p, q, At(clock))
  {
    var q := p.unused[0];
    ReserveHeadShape(p);
    var p1 := Stamped(ReserveHead(p), q, At(clock));
    var p2 := QueryMove(p1, q, AppendUnused);
    assert p.unused == [q] + p.unused[1..] && q !in p.unused[1..];
    WithoutOther(p.unused[1..], q);
    WithoutOther(p.outstanding, q);
    assert p2 == p1.(unused := p.unused[1..] + [q], outstanding := p.outstanding);
    WithoutLast(p.unused[1..], q);
    var batch := [Response(q, false)];
    assert batch[1..] == [] && batch[0].qid == q;
  }

  lemma {:induction false} WithoutLast(s: seq<int>, q: int)
    requires q !in s
    ensures Without(s + [q], q) == s
  {
    if s != [] {
      assert (s + [q])[1..] == s[1..] + [q];
      WithoutLast(s[1..], q);
    }
  }

  lemma ClaimedTail(cfg: Config, s: State, q: int, p: Pool)
    requires s.sender == Failed(q) && QueryMove(s.pool, q, PrependUnused) == p
    ensures var run := [TakeBack, Retract];
      && Legal(cfg, s, run) && Strays(cfg, s, run) == 0
      && Exec(cfg, s, run) == s.(pool := p, sent := s.sent - 1, sender := Ready)
  {
    var s1 := s.(pool := p, sender := Retracting);
    OneMore(cfg, s1, Retract, [], s1.(sent := s.sent - 1, sender := Ready));
    OneMore(cfg, s, TakeBack, [Retract], s1);
  }

  lemma ClaimedMiddle(cfg: Config, s: State, q: nat, p2: Pool, p3: Pool)
    requires s.sender == Failed(q) && s.receiver.Listening? && QueryMove(p2, q, PrependUnused) == p3
    requires ClaimAll(s.pool, [Response(q, false)]).0 == p2 && ClaimAll(s.pool, [Response(q, false)]).1 == 1
    requires q in s.pool.outstanding && q !in p2.outstanding
    ensures var run := [Claim([Response(q, false)]), TakeBack, Retract];
      && Legal(cfg, s, run) && Strays(cfg, s, run) == 1
      && Exec(cfg, s, run) == s.(pool := p3, sent := s.sent - 1, sender := Ready, receiver := Counting(1))
  {
    var s2 := s.(pool := p2, receiver := Counting(1));
    ClaimedTail(cfg, s2, q, p3);
    OneMore(cfg, s, Claim([Response(q, false)]), [TakeBack, Retract], s2);
  }

  lemma ClaimedEnd(cfg: Config, s: State, p: Pool)
    requires Partition(p) && p.unused != [] && s.receiver.Listening?
    requires s.sender == Reserved(p.unused[0]) && s.pool == ReserveHead(p) && p.unused[0] >= 0
    ensures var q := p.unused[0];
      var run := [SendError, Claim([Response(q, false)]), TakeBack, Retract];
      && Legal(cfg, s, run) && Strays(cfg, s, run) == 1
      && Exec(cfg, s, run) == s.(pool := Stamped(p, q, At(s.clock)), sender := Ready, receiver := Counting(1))
  {
    var q := p.unused[0];
    ClaimedPool(p, s.clock);
    var s1 := Apply(cfg, s, SendError);
    ClaimedMiddle(cfg, s1, q, QueryMove(s1.pool, q, AppendUnused), Stamped(p, q, At(s.clock)));
    OneMore(cfg, s, SendError, [Claim([Response(q, false)]), TakeBack, Retract], s1);
  }

  lemma ClaimedRun(cfg: Config, s: State)
    requires Partition(s.pool) && CanStep(cfg, s, Reserve) && s.receiver.Listening? && s.pool.unused[0] >= 0
    ensures var q := s.pool.unused[0];
      && Legal(cfg, s, Claimed(q)) && Strays(cfg, s, Claimed(q)) == 1
      && Exec(cfg, s, Claimed(q)) == s.(pool := Stamped(s.pool, q, At(s.clock)), receiver := Counting(1))
  {
    var q := s.pool.unused[0];
    ClaimedEnd(cfg, Taken(s), s.pool);
    TakeRun(cfg, s, [SendError, Claim([Response(q, false)]), TakeBack, Retract]);
  }

  /** The sender's counters say that n queries are outstanding, however many are. */
  ghost predicate Says(cfg: Config, s: State, n: nat) {
    && Partition(s.pool) && |s.pool.stamp| == cfg.nqids
    && s.sender.Ready? && s.receiver.Listening? && s.sent - s.completed - s.timedout == n
  }

  /** A claimed failure, a query that goes out, and the count: one more is outstanding, and the counters say the same. */
  lemma StretchOnce(cfg: Config, s: State) returns (run: seq<Step>)
    requires 0 < cfg.maxOutstanding <= NQIDS && Says(cfg, s, cfg.maxOutstanding - 1) && s.pool.unused != []
    ensures Legal(cfg, s, run) && Strays(cfg, s, run) == 1 && Says(cfg, Exec(cfg, s, run), cfg.maxOutstanding - 1)
    ensures |Exec(cfg, s, run).pool.unused| == |s.pool.unused| - 1
  {
    var q := s.pool.unused[0];
    assert q in s.pool.unused;
    ClaimedRun(cfg, s);
    var s1 := Exec(cfg, s, Claimed(q));
    SentRun(cfg, s1);
    ReserveHeadShape(s1.pool);
    var s2 := Exec(cfg, s1, SENT);
    OneMore(cfg, s2, CountOne, [], Apply(cfg, s2, CountOne));
    assert [CountOne] + [] == [CountOne];
    RunsJoin(cfg, s1, SENT, [CountOne]);
    RunsJoin(cfg, s, Claimed(q), SENT + [CountOne]);
    run := Claimed(q) + (SENT + [CountOne]);
  }

  lemma {:induction false} Stretch(cfg: Config, s: State) returns (run: seq<Step>)
    requires 0 < cfg.maxOutstanding <= NQIDS && Says(cfg, s, cfg.maxOutstanding - 1)
    ensures Legal(cfg, s, run) && Strays(cfg, s, run) == |s.pool.unused|
    ensures Says(cfg, Exec(cfg, s, run), cfg.maxOutstanding - 1) && Exec(cfg, s, run).pool.unused == []
    decreases |s.pool.unused|
  {
    if s.pool.unused == [] {
      run := [];
    } else {
      var first := StretchOnce(cfg, s);
      var rest := Stretch(cfg, Exec(cfg, s, first));
      RunsJoin(cfg, s, first, rest);
      run := first + rest;
    }
  }

  /** Queries that simply go out, up to one below the limit. */
  lemma {:induction false} Fill(cfg: Config, s: State, n: nat) returns (run: seq<Step>)
    requires ValidConfig(cfg) && n < cfg.maxOutstanding && Says(cfg, s, n) && |s.pool.unused| == cfg.nqids - n
    ensures Legal(cfg, s, run) && Strays(cfg, s, run) == 0
    ensures Says(cfg, Exec(cfg, s, run), cfg.maxOutstanding - 1)
    ensures |Exec(cfg, s, run).pool.unused| == cfg.nqids - cfg.maxOutstanding + 1
    decreases cfg.maxOutstanding - n
  {
    if n == cfg.maxOutstanding - 1 {
      run := [];
    } else {
      SentRun(cfg, s);
      ReserveHeadShape(s.pool);
      var rest := Fill(cfg, Exec(cfg, s, SENT), n + 1);
      RunsJoin(cfg, s, SENT, rest);
      run := SENT + rest;
    }
  }

  /**
   For every configuration that can send at all, stray claims can bring the sender to take an id from an empty list, and
   one more of them than the ids exceed the limit is enough, which by SupplyOfIds is also the least.
   */
  lemma StarvingRun(cfg: Config) returns (run: seq<Step>)
    requires ValidConfig(cfg) && cfg.maxOutstanding > 0
    ensures Legal(cfg, Start(cfg), run) && Starves(cfg, Exec(cfg, Start(cfg), run))
    ensures Strays(cfg, Start(cfg), run) == cfg.nqids - cfg.maxOutstanding + 1
  {
    var s := Start(cfg);
    InitialPartition(cfg.nqids);
    var first := Fill(cfg, s, 0);
    var rest := Stretch(cfg, Exec(cfg, s, first));
    RunsJoin(cfg, s, first, rest);
    run := first + rest;
  }
}
