/**
 The sender/receiver protocol of one dnsperf client.

 The two threads share the query pool under a lock, but count sent, completed and timed-out
 queries outside it.  `Step` lists the atomic steps at that granularity: each locked section
 is one step, and so is each unlocked update of a counter that the other thread can observe.
 A reservation is two steps under one lock (move the id, then clear its old time), because the
 timeout scan looks at the tail without the lock: it is two steps as well (look, then retire under
 the lock).  The look itself loads the time twice; if the sender clears it in between, the age it computes is
 arbitrary, so an id that the sender is taking, or may yet take again, passes the look at any age.
 A failed send is three (stamp and count, give the id back under the lock, uncount).
 */
module Dnsperf {
  import opened IscList
  import opened QueryPool
  import opened PoolPasses

  /** RECV_BATCH_SIZE */
  const BATCH: nat := 16

  datatype Config = Config(nqids: nat, maxOutstanding: nat, timeout: nat)

  datatype Sender =
    | Ready                 // at the top of the loop
    | Taking(q: int)        // in the lock, has moved an id whose last send time is still on it
    | Reserved(q: int)      // holds an id that has not been sent
    | Failed(q: int)        // counted the query, but sendto failed
    | Retracting            // gave the id back, has not yet uncounted the query
    | Finished

  datatype Receiver =
    | Listening
    | Peeked(q: int, now: nat)   // saw q at the tail, old enough at `now`, before taking the lock
    | Counting(left: nat)        // claimed queries whose completion is not yet counted
    | Exited

  datatype State = State(
    pool: Pool, sender: Sender, receiver: Receiver,
    sent: int, completed: int, timedout: int, cancelled: int,
    clock: nat, interrupted: bool)

  datatype Step =
    | Tick(to: nat)
    | Interrupt
    | Reserve | ClearStamp | BuildFailed | EndOfInput | SendOk | SendError | TakeBack | Retract | Stop
    | Peek(now: nat) | Retire | Claim(batch: seq<Response>) | CountOne | ReceiverExit
    | Cancel

  function Start(cfg: Config): State {
    State(Initial(cfg.nqids), Ready, Listening, 0, 0, 0, 0, 0, false)
  }

  /** num_outstanding, with its unsigned 32-bit arithmetic. */
  function NumOutstanding(s: State): int {
    (s.sent - s.completed - s.timedout) % 0x1_0000_0000
  }

  /** The locked loop of process_timeouts: the entry seen before locking goes unconditionally. */
  function RetireFrom(p: Pool, q: int, cutoff: int): (Pool, nat) {
    var (p', n) := RetireTail(QueryMove(p, q, AppendUnused), cutoff);
    (p', n + 1)
  }

  /** The latest send time that the loop's two comparisons let through. */
  function Cutoff(now: nat, timeout: nat): int {
    if timeout == 0 then now - 1 else now - timeout
  }

  predicate CanStep(cfg: Config, s: State, step: Step) {
    match step
    case Tick(to) => s.clock <= to
    case Interrupt => true
    case Reserve => s.sender.Ready? && NumOutstanding(s) < cfg.maxOutstanding && s.pool.unused != []
    case ClearStamp => s.sender.Taking?
    case BuildFailed => s.sender.Reserved?
    case EndOfInput => s.sender.Reserved?
    case SendOk => s.sender.Reserved?
    case SendError => s.sender.Reserved?
    case TakeBack => s.sender.Failed?
    case Retract => s.sender.Retracting?
    case Stop => s.sender.Ready?
    case Peek(now) =>
      && s.receiver.Listening? && now <= s.clock && s.pool.outstanding != []
      && var q := Tail(s.pool);
      && IsSent(s.pool, q) && s.pool.stamp[q].when <= now
      && (now - s.pool.stamp[q].when >= cfg.timeout || s.sender == Taking(q) || s.sender == Failed(q))
    case Retire => s.receiver.Peeked? && !s.sender.Taking?
    case Claim(batch) => s.receiver.Listening? && |batch| <= BATCH && !s.sender.Taking?
    case CountOne => s.receiver.Counting?
    case ReceiverExit =>
      s.receiver.Listening? && (s.interrupted || (s.sender.Finished? && NumOutstanding(s) == 0))
    case Cancel => s.sender.Finished? && s.receiver.Exited? && s.interrupted
  }

  function Apply(cfg: Config, s: State, step: Step): State
    requires CanStep(cfg, s, step)
  {
    match step
    case Tick(to) => s.(clock := to)
    case Interrupt => s.(interrupted := true)
    case Reserve =>
      s.(pool := QueryMove(s.pool, s.pool.unused[0], PrependOutstanding), sender := Taking(s.pool.unused[0]))
    case ClearStamp => s.(pool := Stamped(s.pool, s.sender.q, Never), sender := Reserved(s.sender.q))
    case BuildFailed => s.(pool := QueryMove(s.pool, s.sender.q, PrependUnused), sender := Ready)
    case EndOfInput => s.(sender := Finished)
    case SendOk =>
      s.(pool := Stamped(s.pool, s.sender.q, At(s.clock)), sent := s.sent + 1, sender := Ready)
    case SendError =>
      s.(pool := Stamped(s.pool, s.sender.q, At(s.clock)), sent := s.sent + 1, sender := Failed(s.sender.q))
    case TakeBack => s.(pool := QueryMove(s.pool, s.sender.q, PrependUnused), sender := Retracting)
    case Retract => s.(sent := s.sent - 1, sender := Ready)
    case Stop => s.(sender := Finished)
    case Peek(now) =>
      s.(receiver := Peeked(Tail(s.pool), now))
    case Retire =>
      var (p, n) := RetireFrom(s.pool, s.receiver.q, Cutoff(s.receiver.now, cfg.timeout));
      s.(pool := p, timedout := s.timedout + n, receiver := Listening)
    case Claim(batch) =>
      var (p, n) := ClaimAll(s.pool, batch);
      s.(pool := p, receiver := if n == 0 then Listening else Counting(n))
    case CountOne =>
      s.(completed := s.completed + 1,
         receiver := if s.receiver.left <= 1 then Listening else Counting(s.receiver.left - 1))
    case ReceiverExit => s.(receiver := Exited)
    case Cancel =>
      var (p, n) := CancelAll(s.pool);
      s.(pool := p, cancelled := s.cancelled + n)
  }

  /** The steps can be taken one after another from s. */
  predicate Legal(cfg: Config, s: State, run: seq<Step>)
    decreases |run|
  {
    run == [] || (CanStep(cfg, s, run[0]) && Legal(cfg, Apply(cfg, s, run[0]), run[1..]))
  }

  function Exec(cfg: Config, s: State, run: seq<Step>): State
    requires Legal(cfg, s, run)
    decreases |run|
  {
    if run == [] then s else Exec(cfg, Apply(cfg, s, run[0]), run[1..])
  }

  /** The pool as it is when the lock is free again: an id that is being taken counts as unsent. */
  function Settled(s: State): Pool {
    if s.sender.Taking? then Stamped(s.pool, s.sender.q, Never) else s.pool
  }

  /** What holds of the pool and of who holds which id in every state of every run. */
  ghost predicate Inv(cfg: Config, s: State) {
    && Sound(Settled(s), s.clock) && |s.pool.stamp| == cfg.nqids
    && (forall q :: q in s.pool.outstanding && !IsSent(Settled(s), q) ==>
          s.sender == Reserved(q) || s.sender == Taking(q) || s.sender.Finished?)
    && (s.sender.Taking? ==> 0 <= s.sender.q < cfg.nqids && s.sender.q in s.pool.outstanding)
    && (s.sender.Reserved? ==>
          0 <= s.sender.q < cfg.nqids && (s.sender.q in s.pool.outstanding ==> !IsSent(s.pool, s.sender.q)))
    && (s.sender.Failed? ==> 0 <= s.sender.q < cfg.nqids && IsSent(s.pool, s.sender.q))
    && (s.receiver.Peeked? ==> 0 <= s.receiver.q < cfg.nqids)
    && (s.receiver.Counting? ==> s.receiver.left > 0)
  }

  lemma StartInv(cfg: Config)
    ensures Inv(cfg, Start(cfg))
  {
    InitialPartition(cfg.nqids);
  }

  /** The claims that the receiver has yet to count. */
  function Left(s: State): nat {
    if s.receiver.Counting? then s.receiver.left else 0
  }

  /** Queries that are counted as settled, or still to be settled, beyond those counted as sent. */
  function Balance(s: State): int {
    s.completed + s.timedout + s.cancelled + SentIn(Settled(s), s.pool.outstanding)
    + Left(s) + (if s.sender.Retracting? then 1 else 0) - s.sent
  }

  /**
   The races that put the balance out: the receiver has settled a query whose id the sender then
   takes back as unsent; the receiver retires an id that is not, or no longer, an outstanding sent query;
   and, the other way, a query goes out under an id that has already been settled.
   */
  function StepSkew(s: State, step: Step): int {
    match step
    case SendOk => if s.sender.Reserved? && s.sender.q !in s.pool.outstanding then -1 else 0
    case SendError => if s.sender.Reserved? && s.sender.q !in s.pool.outstanding then -1 else 0
    case TakeBack => if s.sender.Failed? && s.sender.q !in s.pool.outstanding then 1 else 0
    case Retire =>
      if s.receiver.Peeked? && !(s.receiver.q in s.pool.outstanding && IsSent(s.pool, s.receiver.q)) then 1 else 0
    case _ => 0
  }

  lemma ReserveStep(cfg: Config, s: State)
    requires Inv(cfg, s) && CanStep(cfg, s, Reserve)
    ensures Inv(cfg, Apply(cfg, s, Reserve)) && Balance(Apply(cfg, s, Reserve)) == Balance(s)
  {
    ReserveSound(s.pool, s.clock);
    ReserveHeadShape(s.pool);
    assert Settled(Apply(cfg, s, Reserve)) == ReserveHead(s.pool);
  }

  lemma ClearStep(cfg: Config, s: State)
    requires Inv(cfg, s) && CanStep(cfg, s, ClearStamp)
    ensures Inv(cfg, Apply(cfg, s, ClearStamp)) && Balance(Apply(cfg, s, ClearStamp)) == Balance(s)
  {
    assert Apply(cfg, s, ClearStamp).pool == Settled(s);
  }

  lemma SendStep(cfg: Config, s: State, step: Step)
    requires Inv(cfg, s) && CanStep(cfg, s, step) && (step.SendOk? || step.SendError?)
    ensures Inv(cfg, Apply(cfg, s, step))
    ensures Balance(Apply(cfg, s, step)) == Balance(s) + StepSkew(s, step)
  {
    StampSound(s.pool, s.clock, s.sender.q);
  }

  lemma GiveBackStep(cfg: Config, s: State, step: Step)
    requires Inv(cfg, s) && CanStep(cfg, s, step) && (step.BuildFailed? || step.TakeBack?)
    ensures Inv(cfg, Apply(cfg, s, step))
    ensures Balance(Apply(cfg, s, step)) == Balance(s) + StepSkew(s, step)
  {
    RemoveSound(s.pool, s.clock, s.sender.q, PrependUnused);
  }

  lemma ReceiverStep(cfg: Config, s: State, step: Step)
    requires Inv(cfg, s) && CanStep(cfg, s, step)
    requires step.Peek? || step.Retire? || step.Claim? || step.Cancel?
    ensures Inv(cfg, Apply(cfg, s, step))
    ensures Balance(Apply(cfg, s, step)) == Balance(s) + StepSkew(s, step)
  {
    match step
    case Peek(_) =>
    case Retire =>
      RemoveSound(s.pool, s.clock, s.receiver.q, AppendUnused);
      RetireTailSound(QueryMove(s.pool, s.receiver.q, AppendUnused), s.clock, Cutoff(s.receiver.now, cfg.timeout));
    case Claim(batch) => ClaimAllSound(s.pool, s.clock, batch);
    case Cancel => CancelAllSound(s.pool, s.clock);
  }

  lemma EveryStep(cfg: Config, s: State, step: Step)
    requires Inv(cfg, s) && CanStep(cfg, s, step)
    ensures Inv(cfg, Apply(cfg, s, step))
    ensures Balance(Apply(cfg, s, step)) == Balance(s) + StepSkew(s, step)
  {
    match step
    case Tick(_) =>
    case Interrupt =>
    case Retract =>
    case Stop =>
    case CountOne =>
    case ReceiverExit =>
    case Peek(_) => ReceiverStep(cfg, s, step);
    case Retire => ReceiverStep(cfg, s, step);
    case Claim(_) => ReceiverStep(cfg, s, step);
    case Cancel => ReceiverStep(cfg, s, step);
    case Reserve => ReserveStep(cfg, s);
    case ClearStamp => ClearStep(cfg, s);
    case SendOk => SendStep(cfg, s, step);
    case SendError => SendStep(cfg, s, step);
    case BuildFailed => GiveBackStep(cfg, s, step);
    case TakeBack => GiveBackStep(cfg, s, step);
    case EndOfInput =>
  }

  /** The skews of a run, added up. */
  function Skew(cfg: Config, s: State, run: seq<Step>): int
    requires Legal(cfg, s, run)
    decreases |run|
  {
    if run == [] then 0 else StepSkew(s, run[0]) + Skew(cfg, Apply(cfg, s, run[0]), run[1..])
  }

  lemma {:induction false} RunKeeps(cfg: Config, s: State, run: seq<Step>)
    requires Inv(cfg, s) && Legal(cfg, s, run)
    ensures Inv(cfg, Exec(cfg, s, run))
    ensures Balance(Exec(cfg, s, run)) == Balance(s) + Skew(cfg, s, run)
    decreases |run|
  {
    if run != [] {
      EveryStep(cfg, s, run[0]);
      RunKeeps(cfg, Apply(cfg, s, run[0]), run[1..]);
    }
  }

  predicate AlwaysBalanced(cfg: Config, s: State, run: seq<Step>)
    requires Legal(cfg, s, run)
    decreases |run|
  {
    Balance(s) == 0 && (run == [] || AlwaysBalanced(cfg, Apply(cfg, s, run[0]), run[1..]))
  }

  predicate NeverSkews(cfg: Config, s: State, run: seq<Step>)
    requires Legal(cfg, s, run)
    decreases |run|
  {
    run == [] || (StepSkew(s, run[0]) == 0 && NeverSkews(cfg, Apply(cfg, s, run[0]), run[1..]))
  }

  /** The counters balance all through a run exactly when none of the three races occurs in it. */
  lemma {:induction false} BalancedIff(cfg: Config, s: State, run: seq<Step>)
    requires Inv(cfg, s) && Balance(s) == 0 && Legal(cfg, s, run)
    ensures AlwaysBalanced(cfg, s, run) <==> NeverSkews(cfg, s, run)
    decreases |run|
  {
    if run != [] {
      EveryStep(cfg, s, run[0]);
      if StepSkew(s, run[0]) == 0 {
        BalancedIff(cfg, Apply(cfg, s, run[0]), run[1..]);
      }
    }
  }

  /** A send that will go out under an id that has already been settled. */
  function Owed(s: State): nat {
    if s.sender.Reserved? && s.sender.q !in s.pool.outstanding then 1 else 0
  }

  /** What else holds of the counters in every state of every run: never is less settled than sent. */
  ghost predicate Books(s: State) {
    && Balance(s) >= Owed(s)
    && (s.receiver.Counting? ==> s.receiver.left <= BATCH)
    && (!(s.sender.Finished? && s.interrupted) ==> s.cancelled == 0)
    && (s.receiver.Exited? && !s.interrupted ==> s.sender.Finished? && NumOutstanding(s) == 0)
  }

  lemma BooksReceiver(cfg: Config, s: State, step: Step)
    requires Inv(cfg, s) && Books(s) && CanStep(cfg, s, step) && (step.Retire? || step.Claim? || step.Cancel?)
    ensures Books(Apply(cfg, s, step))
  {
    EveryStep(cfg, s, step);
    match step
    case Retire =>
      RemoveSound(s.pool, s.clock, s.receiver.q, AppendUnused);
      RetireTailSound(QueryMove(s.pool, s.receiver.q, AppendUnused), s.clock, Cutoff(s.receiver.now, cfg.timeout));
    case Claim(batch) => ClaimAllSound(s.pool, s.clock, batch);
    case Cancel => CancelAllSound(s.pool, s.clock);
  }

  lemma BooksStep(cfg: Config, s: State, step: Step)
    requires Inv(cfg, s) && Books(s) && CanStep(cfg, s, step)
    ensures Books(Apply(cfg, s, step))
  {
    EveryStep(cfg, s, step);
    if step.Retire? || step.Claim? || step.Cancel? {
      BooksReceiver(cfg, s, step);
    }
  }

  lemma {:induction false} BooksRun(cfg: Config, s: State, run: seq<Step>)
    requires Inv(cfg, s) && Books(s) && Legal(cfg, s, run)
    ensures Inv(cfg, Exec(cfg, s, run)) && Books(Exec(cfg, s, run))
    decreases |run|
  {
    if run != [] {
      EveryStep(cfg, s, run[0]);
      BooksStep(cfg, s, run[0]);
      BooksRun(cfg, Apply(cfg, s, run[0]), run[1..]);
    }
  }

  /**
   Conservation over every interleaving: whatever the two threads do, every counted send is
   counted completed, timed out or cancelled, is still outstanding, is claimed but uncounted, or is
   about to be uncounted; the difference is exactly the skew of the races that occurred, and never negative.
   */
  lemma Conservation(cfg: Config, run: seq<Step>)
    requires Legal(cfg, Start(cfg), run)
    ensures var s := Exec(cfg, Start(cfg), run);
      && s.sent + Skew(cfg, Start(cfg), run)
         == s.completed + s.timedout + s.cancelled + SentIn(Settled(s), s.pool.outstanding)
            + Left(s) + (if s.sender.Retracting? then 1 else 0)
      && Skew(cfg, Start(cfg), run) >= 0
      && Partition(s.pool) && NewestFirst(Settled(s), s.pool.outstanding)
  {
    StartInv(cfg);
    RunKeeps(cfg, Start(cfg), run);
    BooksRun(cfg, Start(cfg), run);
  }

  predicate ValidConfig(cfg: Config) {
    cfg.maxOutstanding <= cfg.nqids <= NQIDS
  }

  /** What the sender computes at the top of its loop: the list and the uncounted claims, less the skew, modulo 2^32. */
  lemma NumOutstandingIs(cfg: Config, s: State)
    requires Inv(cfg, s) && Books(s) && s.sender.Ready?
    ensures NumOutstanding(s) == (|s.pool.outstanding| + Left(s) - Balance(s)) % 0x1_0000_0000
    ensures s.pool.unused == [] <==> |s.pool.outstanding| == cfg.nqids
    ensures |s.pool.outstanding| <= cfg.nqids && Left(s) <= BATCH && Balance(s) >= 0
  {
    SentInBounds(s.pool, s.pool.outstanding);
  }

  /** The sender passes its test, and there is no id for it to take. */
  predicate Starves(cfg: Config, s: State) {
    s.sender.Ready? && NumOutstanding(s) < cfg.maxOutstanding && s.pool.unused == []
  }

  lemma ShrinkingStep(cfg: Config, s: State, step: Step)
    requires Inv(cfg, s) && CanStep(cfg, s, step) && !step.Reserve?
    ensures |Apply(cfg, s, step).pool.outstanding| <= |s.pool.outstanding|
  {
    match step
    case BuildFailed => RemoveSound(s.pool, s.clock, s.sender.q, PrependUnused);
    case TakeBack => RemoveSound(s.pool, s.clock, s.sender.q, PrependUnused);
    case Retire =>
      RemoveSound(s.pool, s.clock, s.receiver.q, AppendUnused);
      RetireTailSound(QueryMove(s.pool, s.receiver.q, AppendUnused), s.clock, Cutoff(s.receiver.now, cfg.timeout));
    case Claim(batch) => ClaimAllSound(s.pool, s.clock, batch);
    case Cancel => CancelAllSound(s.pool, s.clock);
    case _ =>
  }

  /** The balance never exceeds b on the way. */
  predicate BalanceAtMost(cfg: Config, s: State, run: seq<Step>, b: nat)
    requires Legal(cfg, s, run)
    decreases |run|
  {
    Balance(s) <= b && (run == [] || BalanceAtMost(cfg, Apply(cfg, s, run[0]), run[1..], b))
  }

  lemma ReserveBound(cfg: Config, s: State, b: nat)
    requires ValidConfig(cfg) && Inv(cfg, s) && Books(s) && CanStep(cfg, s, Reserve) && Balance(s) <= b
    ensures |Apply(cfg, s, Reserve).pool.outstanding| <= cfg.maxOutstanding + b
  {
    NumOutstandingIs(cfg, s);
    ReserveHeadShape(s.pool);
  }

  lemma {:induction false} BoundRun(cfg: Config, s: State, run: seq<Step>, b: nat)
    requires ValidConfig(cfg) && Inv(cfg, s) && Books(s) && Legal(cfg, s, run) && BalanceAtMost(cfg, s, run, b)
    requires |s.pool.outstanding| <= cfg.maxOutstanding + b
    ensures |Exec(cfg, s, run).pool.outstanding| <= cfg.maxOutstanding + b
    decreases |run|
  {
    if run != [] {
      EveryStep(cfg, s, run[0]);
      BooksStep(cfg, s, run[0]);
      if run[0].Reserve? {
        ReserveBound(cfg, s, b);
      } else {
        ShrinkingStep(cfg, s, run[0]);
      }
      BoundRun(cfg, Apply(cfg, s, run[0]), run[1..], b);
    }
  }

  /**
   In every run the outstanding list exceeds its limit by no more than the counters were ever out of balance, and
   the sender only runs out of ids if they were out by more than the ids exceed the limit.
   */
  lemma OutstandingBound(cfg: Config, run: seq<Step>, b: nat)
    requires ValidConfig(cfg) && Legal(cfg, Start(cfg), run) && BalanceAtMost(cfg, Start(cfg), run, b)
    ensures |Exec(cfg, Start(cfg), run).pool.outstanding| <= cfg.maxOutstanding + b
    ensures Starves(cfg, Exec(cfg, Start(cfg), run)) ==> b > cfg.nqids - cfg.maxOutstanding
  {
    StartInv(cfg);
    BoundRun(cfg, Start(cfg), run, b);
    BalanceAtEnd(cfg, Start(cfg), run, b);
    BooksRun(cfg, Start(cfg), run);
    if Exec(cfg, Start(cfg), run).sender.Ready? {
      NumOutstandingIs(cfg, Exec(cfg, Start(cfg), run));
    }
  }

  lemma {:induction false} BalanceAtEnd(cfg: Config, s: State, run: seq<Step>, b: nat)
    requires Legal(cfg, s, run) && BalanceAtMost(cfg, s, run, b)
    ensures Balance(Exec(cfg, s, run)) <= b
    decreases |run|
  {
    if run != [] {
      BalanceAtEnd(cfg, Apply(cfg, s, run[0]), run[1..], b);
    }
  }

  /**
   After both threads are joined, and the cancel pass has run if there was an interrupt.  An interrupted run is
   accounted for exactly when its skew is zero.  Without an interrupt the receiver has left because the counters
   agreed modulo 2^32, so as many queries are abandoned as the skew says, and none exactly when it is zero.
   */
  lemma FinalAccounting(cfg: Config, run: seq<Step>)
    requires ValidConfig(cfg) && Legal(cfg, Start(cfg), run)
    requires var s := Exec(cfg, Start(cfg), run);
      s.sender.Finished? && s.receiver.Exited? && (s.interrupted ==> s.pool.outstanding == [])
    ensures var s, skew := Exec(cfg, Start(cfg), run), Skew(cfg, Start(cfg), run);
      && (s.interrupted ==> s.sent + skew == s.completed + s.timedout + s.cancelled)
      && (!s.interrupted ==> s.cancelled == 0 && (s.sent - s.completed - s.timedout) % 0x1_0000_0000 == 0)
      && (!s.interrupted && skew < 0x1_0000_0000 ==>
           s.sent == s.completed + s.timedout && SentIn(s.pool, s.pool.outstanding) == skew)
  {
    StartInv(cfg);
    RunKeeps(cfg, Start(cfg), run);
    BooksRun(cfg, Start(cfg), run);
    var s, skew := Exec(cfg, Start(cfg), run), Skew(cfg, Start(cfg), run);
    SentInBounds(s.pool, s.pool.outstanding);
    if !s.interrupted && skew < 0x1_0000_0000 {
      var d := s.sent - s.completed - s.timedout;
      assert d == SentIn(s.pool, s.pool.outstanding) - skew && -0x1_0000_0000 < d < 0x1_0000_0000;
    }
  }

  /**
   A timeout scan takes the entry seen before the lock, and then exactly the sent queries that are old by then,
   wherever they are on the list.  It does what a scan of the whole list would if and only if the entry seen
   is still outstanding and old.
   */
  lemma TimeoutScanIs(cfg: Config, s: State)
    requires Inv(cfg, s) && CanStep(cfg, s, Retire)
    ensures var s', seen, cutoff := Apply(cfg, s, Retire), s.receiver.q, Cutoff(s.receiver.now, cfg.timeout);
      && (forall q :: q in s'.pool.outstanding <==>
           q in s.pool.outstanding && q != seen && !Old(s.pool, q, cutoff))
      && (FullScan(s.pool, cutoff).0.outstanding == s'.pool.outstanding
          && FullScan(s.pool, cutoff).1 == s'.timedout - s.timedout
          <==> seen in s.pool.outstanding && Old(s.pool, seen, cutoff))
  {
    var s', seen, cutoff := Apply(cfg, s, Retire), s.receiver.q, Cutoff(s.receiver.now, cfg.timeout);
    var moved := QueryMove(s.pool, seen, AppendUnused);
    RemoveSound(s.pool, s.clock, seen, AppendUnused);
    RetireTailIsFullScan(moved, s.clock, cutoff);
    RetireTailLeavesNoneOld(moved, s.clock, cutoff);
    FullScanMembers(s.pool, s.pool.outstanding, cutoff);
    ScanFrame(s.pool, moved, moved.outstanding, cutoff);
    if seen !in s.pool.outstanding {
      WithoutOther(s.pool.outstanding, seen);
    } else if Old(s.pool, seen, cutoff) {
      ScanWithout(s.pool, s.pool.outstanding, seen, cutoff);
    } else {
      assert seen in FullScan(s.pool, cutoff).0.outstanding;
    }
  }

  /**
   The receiver lays hold of a query whose send has failed before the sender takes the id back, or looks at an id
   that is being taken while its last send time is still on it.
   */
  predicate Interferes(cfg: Config, s: State, step: Step)
    requires CanStep(cfg, s, step)
  {
    && (s.sender.Failed? || s.sender.Taking?) && s.sender.q in s.pool.outstanding
    && match step
       case Peek(_) => s.sender.q == Tail(s.pool)
       case Retire => s.sender.q !in Apply(cfg, s, step).pool.outstanding
       case Claim(_) => s.sender.q !in Apply(cfg, s, step).pool.outstanding
       case _ => false
  }

  predicate Undisturbed(cfg: Config, s: State, run: seq<Step>)
    requires Legal(cfg, s, run)
    decreases |run|
  {
    run == [] || (!Interferes(cfg, s, run[0]) && Undisturbed(cfg, Apply(cfg, s, run[0]), run[1..]))
  }

  /** What an undisturbed run adds to the invariant: each thread's idea of its id is still right. */
  ghost predicate Clean(cfg: Config, s: State) {
    && Inv(cfg, s)
    && (s.sender.Reserved? || s.sender.Failed? ==> s.sender.q in s.pool.outstanding)
    && (s.receiver.Peeked? ==>
          && s.pool.outstanding != [] && s.receiver.q == Tail(s.pool) && IsSent(Settled(s), s.receiver.q)
          && s.sender != Failed(s.receiver.q))
  }

  lemma CleanReserve(cfg: Config, s: State)
    requires Clean(cfg, s) && CanStep(cfg, s, Reserve)
    ensures Clean(cfg, Apply(cfg, s, Reserve))
  {
    ReserveStep(cfg, s);
    ReserveHeadShape(s.pool);
  }

  lemma CleanGiveBack(cfg: Config, s: State, step: Step)
    requires Clean(cfg, s) && CanStep(cfg, s, step) && (step.BuildFailed? || step.TakeBack?)
    ensures Clean(cfg, Apply(cfg, s, step)) && StepSkew(s, step) == 0
  {
    GiveBackStep(cfg, s, step);
    if s.receiver.Peeked? {
      TailKept(s.pool, s.sender.q);
    }
  }

  lemma CleanReceiver(cfg: Config, s: State, step: Step)
    requires Clean(cfg, s) && CanStep(cfg, s, step) && !Interferes(cfg, s, step)
    requires step.Peek? || step.Retire? || step.Claim?
    ensures Clean(cfg, Apply(cfg, s, step)) && StepSkew(s, step) == 0
  {
    ReceiverStep(cfg, s, step);
    match step
    case Peek(_) =>
    case Retire =>
      RemoveSound(s.pool, s.clock, s.receiver.q, AppendUnused);
      RetireTailSound(QueryMove(s.pool, s.receiver.q, AppendUnused), s.clock, Cutoff(s.receiver.now, cfg.timeout));
    case Claim(batch) => ClaimAllSound(s.pool, s.clock, batch);
  }

  lemma CleanStep(cfg: Config, s: State, step: Step)
    requires Clean(cfg, s) && CanStep(cfg, s, step) && !Interferes(cfg, s, step)
    ensures Clean(cfg, Apply(cfg, s, step)) && StepSkew(s, step) == 0
  {
    match step
    case Reserve => CleanReserve(cfg, s);
    case ClearStamp => ClearStep(cfg, s);
    case BuildFailed => CleanGiveBack(cfg, s, step);
    case TakeBack => CleanGiveBack(cfg, s, step);
    case SendOk => SendStep(cfg, s, step);
    case SendError => SendStep(cfg, s, step);
    case Peek(_) => CleanReceiver(cfg, s, step);
    case Retire => CleanReceiver(cfg, s, step);
    case Claim(_) => CleanReceiver(cfg, s, step);
    case _ => EveryStep(cfg, s, step);
  }

  /** Without interference none of the races occurs, so that the counters balance all through the run. */
  lemma {:induction false} UndisturbedRun(cfg: Config, s: State, run: seq<Step>)
    requires Clean(cfg, s) && Legal(cfg, s, run) && Undisturbed(cfg, s, run)
    ensures NeverSkews(cfg, s, run) && Clean(cfg, Exec(cfg, s, run))
    decreases |run|
  {
    if run != [] {
      CleanStep(cfg, s, run[0]);
      UndisturbedRun(cfg, Apply(cfg, s, run[0]), run[1..]);
    }
  }

  /** No interrupt comes. */
  predicate Quiet(run: seq<Step>) {
    forall step :: step in run ==> !step.Interrupt?
  }

  /** What the receiver could still settle. */
  function Pending(s: State): nat {
    SentIn(s.pool, s.pool.outstanding) + Left(s)
    + if s.receiver.Peeked? && !(s.receiver.q in s.pool.outstanding && IsSent(s.pool, s.receiver.q)) then 1 else 0
  }

  /** All is sent, and more has been settled than that. */
  ghost predicate Overdrawn(cfg: Config, s: State) {
    && Inv(cfg, s) && s.sender.Finished? && !s.interrupted && !s.receiver.Exited?
    && 0 < s.completed + s.timedout - s.sent && s.completed + s.timedout - s.sent + Pending(s) < 0x1_0000_0000
  }

  lemma OverdrawnStep(cfg: Config, s: State, step: Step)
    requires Overdrawn(cfg, s) && CanStep(cfg, s, step) && !step.Interrupt?
    ensures Overdrawn(cfg, Apply(cfg, s, step))
  {
    EveryStep(cfg, s, step);
    match step
    case Retire =>
      RemoveSound(s.pool, s.clock, s.receiver.q, AppendUnused);
      RetireTailSound(QueryMove(s.pool, s.receiver.q, AppendUnused), s.clock, Cutoff(s.receiver.now, cfg.timeout));
    case Claim(batch) => ClaimAllSound(s.pool, s.clock, batch);
    case _ =>
  }

  /** Once more is settled than was sent, and all is sent, only an interrupt can end the receiver: it waits for ever. */
  lemma {:induction false} SkewedReceiverWaits(cfg: Config, s: State, run: seq<Step>)
    requires Overdrawn(cfg, s) && Legal(cfg, s, run) && Quiet(run)
    ensures !Exec(cfg, s, run).receiver.Exited? && !CanStep(cfg, Exec(cfg, s, run), ReceiverExit)
    decreases |run|
  {
    if run != [] {
      assert run[0] in run && forall step :: step in run[1..] ==> step in run;
      OverdrawnStep(cfg, s, run[0]);
      SkewedReceiverWaits(cfg, Apply(cfg, s, run[0]), run[1..]);
    }
  }
}
