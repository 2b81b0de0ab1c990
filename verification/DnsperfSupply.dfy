/**
 The sender's supply of ids, and what it takes to exhaust it.

 A stray claim is one that takes the id of a query whose send has failed: a response to a query that was never
 answered, because it never went out.  The timeout races can put the counters out by one, but only when the list is
 empty, and then the sender is blocked rather than starved.  So the strays of a run bound what the other lemmas
 bound by its skew.
 */
module DnsperfSupply {
  import opened IscList
  import opened QueryPool
  import opened PoolPasses
  import opened Dnsperf

  predicate IsStray(cfg: Config, s: State, step: Step)
    requires CanStep(cfg, s, step)
  {
    && step.Claim? && s.sender.Failed?
    && s.sender.q in s.pool.outstanding && s.sender.q !in Apply(cfg, s, step).pool.outstanding
  }

  function Strays(cfg: Config, s: State, run: seq<Step>): nat
    requires Legal(cfg, s, run)
    decreases |run|
  {
    if run == [] then 0
    else (if IsStray(cfg, s, run[0]) then 1 else 0) + Strays(cfg, Apply(cfg, s, run[0]), run[1..])
  }

  predicate HasId(sender: Sender) {
    sender.Taking? || sender.Reserved? || sender.Failed?
  }

  /** The id the sender works on is the newest. */
  predicate HeadOk(s: State) {
    HasId(s.sender) && s.sender.q in s.pool.outstanding ==> s.pool.outstanding[0] == s.sender.q
  }

  /** What the receiver has seen is still the tail, unless the sender has given it back, and then it is the next to be taken. */
  predicate PeekOk(s: State) {
    s.receiver.Peeked? ==>
      if s.pool.outstanding != [] then s.receiver.q == Tail(s.pool)
      else s.pool.unused != [] && s.pool.unused[0] == s.receiver.q && !HasId(s.sender)
  }

  /** A failed send whose id has been settled already; taking it back will put the counters out. */
  function Doomed(s: State): nat {
    if s.sender.Failed? && s.sender.q !in s.pool.outstanding then 1 else 0
  }

  predicate Drained(s: State) {
    s.pool.outstanding == [] && (s.receiver.Listening? || s.receiver.Exited?)
  }

  /** After k strays the counters are out by at most k, or by one more with nothing outstanding. */
  predicate BalanceOk(s: State, k: nat) {
    Balance(s) + Doomed(s) <= k || (Balance(s) + Doomed(s) <= k + 1 && Drained(s))
  }

  ghost predicate Tidy(cfg: Config, s: State, k: nat) {
    Inv(cfg, s) && Books(s) && HeadOk(s) && PeekOk(s) && BalanceOk(s, k)
  }

  lemma {:induction false} ClaimKeepsHead(p: Pool, batch: seq<Response>, q: int)
    requires p.outstanding != [] && p.outstanding[0] == q && Partition(p)
    ensures q in ClaimAll(p, batch).0.outstanding ==> ClaimAll(p, batch).0.outstanding[0] == q
    decreases |batch|
  {
    if batch != [] {
      if Expected(p, batch[0]) {
        var p' := QueryMove(p, batch[0].qid, AppendUnused);
        QueryMovePartition(p, batch[0].qid, AppendUnused);
        if batch[0].qid == q {
          ClaimAllExact(p', batch[1..]);
        } else {
          ClaimKeepsHead(p', batch[1..], q);
        }
      } else {
        ClaimKeepsHead(p, batch[1..], q);
      }
    }
  }

  lemma {:induction false} NothingToClaim(p: Pool, batch: seq<Response>)
    requires p.outstanding == []
    ensures ClaimAll(p, batch) == (p, 0)
    decreases |batch|
  {
    if batch != [] {
      NothingToClaim(p, batch[1..]);
    }
  }

  lemma {:induction false} RetireTailPrefix(p: Pool, cutoff: int)
    ensures RetireTail(p, cutoff).0.outstanding <= p.outstanding
    decreases |p.outstanding|
  {
    if p.outstanding != [] && Old(p, Tail(p), cutoff) {
      RetireTailPrefix(DropTail(p), cutoff);
    }
  }

  /** Retiring from the tail leaves the front of the list. */
  lemma RetireFromTail(p: Pool, cutoff: int)
    requires Partition(p) && p.outstanding != []
    ensures RetireFrom(p, Tail(p), cutoff).0.outstanding <= p.outstanding[..|p.outstanding| - 1]
  {
    MoveTail(p);
    RetireTailPrefix(DropTail(p), cutoff);
  }

  lemma RetireFromNothing(p: Pool, q: int, cutoff: int)
    requires p.outstanding == []
    ensures RetireFrom(p, q, cutoff).0.outstanding == []
  {
  }

  /** With the counters out and nothing outstanding, the sender is blocked. */
  lemma DrainedBlocks(cfg: Config, s: State)
    requires ValidConfig(cfg) && Inv(cfg, s) && Books(s) && s.sender.Ready? && Drained(s)
    requires 0 < Balance(s) <= 0x8000_0000
    ensures NumOutstanding(s) == 0x1_0000_0000 - Balance(s) && !CanStep(cfg, s, Reserve)
  {
    NumOutstandingIs(cfg, s);
  }

  lemma TidyReserve(cfg: Config, s: State, k: nat)
    requires ValidConfig(cfg) && Tidy(cfg, s, k) && k < 0x8000_0000 && CanStep(cfg, s, Reserve)
    ensures Tidy(cfg, Apply(cfg, s, Reserve), k) && Balance(s) <= k
  {
    if Balance(s) > k {
      DrainedBlocks(cfg, s);
    }
    EveryStep(cfg, s, Reserve);
    BooksStep(cfg, s, Reserve);
    ReserveHeadShape(s.pool);
  }

  lemma GiveBackHead(p: Pool, q: int)
    requires Partition(p) && 0 <= q < |p.stamp| && (q in p.outstanding ==> p.outstanding[0] == q)
    ensures var p' := QueryMove(p, q, PrependUnused);
      && p'.unused != [] && p'.unused[0] == q
      && p'.outstanding == (if q in p.outstanding then p.outstanding[1..] else p.outstanding)
  {
    if q !in p.outstanding {
      WithoutOther(p.outstanding, q);
    }
  }

  lemma GiveBackPeek(cfg: Config, s: State, step: Step)
    requires Inv(cfg, s) && HeadOk(s) && PeekOk(s) && CanStep(cfg, s, step) && (step.BuildFailed? || step.TakeBack?)
    ensures PeekOk(Apply(cfg, s, step))
  {
    GiveBackHead(s.pool, s.sender.q);
  }

  lemma TidyGiveBack(cfg: Config, s: State, step: Step, k: nat)
    requires Tidy(cfg, s, k) && CanStep(cfg, s, step) && (step.BuildFailed? || step.TakeBack?)
    ensures Tidy(cfg, Apply(cfg, s, step), k)
  {
    EveryStep(cfg, s, step);
    BooksStep(cfg, s, step);
    GiveBackHead(s.pool, s.sender.q);
    GiveBackPeek(cfg, s, step);
  }

  lemma TidySend(cfg: Config, s: State, step: Step, k: nat)
    requires Tidy(cfg, s, k) && CanStep(cfg, s, step) && (step.SendOk? || step.SendError?)
    ensures Tidy(cfg, Apply(cfg, s, step), k)
  {
    EveryStep(cfg, s, step);
    BooksStep(cfg, s, step);
  }

  lemma TidyRetire(cfg: Config, s: State, k: nat)
    requires Tidy(cfg, s, k) && CanStep(cfg, s, Retire)
    ensures Tidy(cfg, Apply(cfg, s, Retire), k)
  {
    EveryStep(cfg, s, Retire);
    BooksStep(cfg, s, Retire);
    var cutoff, out := Cutoff(s.receiver.now, cfg.timeout), s.pool.outstanding;
    if out == [] {
      RetireFromNothing(s.pool, s.receiver.q, cutoff);
    } else {
      RetireFromTail(s.pool, cutoff);
      if !IsSent(s.pool, s.receiver.q) {
        assert Tail(s.pool) in out;
        UnsentIsHead(s.pool, s.receiver.q);
        assert |out| == 1 by { assert out[0] == out[|out| - 1]; }
      }
    }
  }

  lemma TidyClaim(cfg: Config, s: State, step: Step, k: nat)
    requires Tidy(cfg, s, k) && CanStep(cfg, s, step) && step.Claim?
    ensures Tidy(cfg, Apply(cfg, s, step), k + if IsStray(cfg, s, step) then 1 else 0)
  {
    EveryStep(cfg, s, step);
    BooksStep(cfg, s, step);
    if s.pool.outstanding == [] {
      NothingToClaim(s.pool, step.batch);
    } else {
      ClaimAllSound(s.pool, s.clock, step.batch);
      if HasId(s.sender) && s.sender.q in s.pool.outstanding {
        ClaimKeepsHead(s.pool, step.batch, s.sender.q);
      }
    }
  }

  lemma TidyOther(cfg: Config, s: State, step: Step, k: nat)
    requires Tidy(cfg, s, k) && CanStep(cfg, s, step)
    requires step.Tick? || step.Interrupt? || step.ClearStamp? || step.EndOfInput? || step.Retract? || step.Stop?
      || step.Peek? || step.CountOne? || step.ReceiverExit? || step.Cancel?
    ensures Tidy(cfg, Apply(cfg, s, step), k)
  {
    EveryStep(cfg, s, step);
    BooksStep(cfg, s, step);
    if step.Cancel? {
      CancelAllSound(s.pool, s.clock);
    }
  }

  lemma TidyStep(cfg: Config, s: State, step: Step, k: nat)
    requires ValidConfig(cfg) && Tidy(cfg, s, k) && k < 0x8000_0000 && CanStep(cfg, s, step)
    ensures Tidy(cfg, Apply(cfg, s, step), k + if IsStray(cfg, s, step) then 1 else 0)
  {
    match step
    case Reserve => TidyReserve(cfg, s, k);
    case SendOk => TidySend(cfg, s, step, k);
    case SendError => TidySend(cfg, s, step, k);
    case BuildFailed => TidyGiveBack(cfg, s, step, k);
    case TakeBack => TidyGiveBack(cfg, s, step, k);
    case Retire => TidyRetire(cfg, s, k);
    case Claim(_) => TidyClaim(cfg, s, step, k);
    case _ => TidyOther(cfg, s, step, k);
  }

  lemma {:induction false} TidyRun(cfg: Config, s: State, run: seq<Step>, k: nat)
    requires ValidConfig(cfg) && Tidy(cfg, s, k) && Legal(cfg, s, run)
    requires k + Strays(cfg, s, run) < 0x8000_0000 && |s.pool.outstanding| <= cfg.maxOutstanding + k
    ensures Tidy(cfg, Exec(cfg, s, run), k + Strays(cfg, s, run))
    ensures |Exec(cfg, s, run).pool.outstanding| <= cfg.maxOutstanding + k + Strays(cfg, s, run)
    decreases |run|
  {
    if run != [] {
      var s' := Apply(cfg, s, run[0]);
      TidyStep(cfg, s, run[0], k);
      if run[0].Reserve? {
        TidyReserve(cfg, s, k);
        ReserveBound(cfg, s, k);
      } else {
        ShrinkingStep(cfg, s, run[0]);
      }
      TidyRun(cfg, s', run[1..], k + if IsStray(cfg, s, run[0]) then 1 else 0);
    }
  }

  lemma StartTidy(cfg: Config)
    ensures Tidy(cfg, Start(cfg), 0)
  {
    StartInv(cfg);
  }

  /**
   In every run the outstanding list exceeds its limit by at most the number of stray claims, and the sender runs out
   of ids only after more of them than the ids exceed the limit.
   */
  lemma SupplyOfIds(cfg: Config, run: seq<Step>)
    requires ValidConfig(cfg) && Legal(cfg, Start(cfg), run)
    ensures var s, k := Exec(cfg, Start(cfg), run), Strays(cfg, Start(cfg), run);
      && |s.pool.outstanding| <= cfg.maxOutstanding + k
      && (Starves(cfg, s) ==> k > cfg.nqids - cfg.maxOutstanding)
  {
    var s, k := Exec(cfg, Start(cfg), run), Strays(cfg, Start(cfg), run);
    StartTidy(cfg);
    BooksRun(cfg, Start(cfg), run);
    if k < 0x8000_0000 {
      TidyRun(cfg, Start(cfg), run, 0);
      if s.sender.Ready? {
        NumOutstandingIs(cfg, s);
      }
    }
  }

  /**
   Without a stray claim, whatever the timeout scan does: the list keeps to its limit, the sender never runs out of ids,
   and the counters are out by at most one.  If they are, a sender at the top of its loop is blocked, with
   nothing outstanding.
   */
  lemma NoStrays(cfg: Config, run: seq<Step>)
    requires ValidConfig(cfg) && Legal(cfg, Start(cfg), run) && Strays(cfg, Start(cfg), run) == 0
    ensures var s, skew := Exec(cfg, Start(cfg), run), Skew(cfg, Start(cfg), run);
      && |s.pool.outstanding| <= cfg.maxOutstanding && !Starves(cfg, s) && 0 <= skew <= 1
      && (skew == 1 && s.sender.Ready? ==> s.pool.outstanding == [] && NumOutstanding(s) == 0xFFFF_FFFF)
  {
    var s := Exec(cfg, Start(cfg), run);
    SupplyOfIds(cfg, run);
    StartTidy(cfg);
    TidyRun(cfg, Start(cfg), run, 0);
    RunKeeps(cfg, Start(cfg), run);
    if Balance(s) == 1 && s.sender.Ready? {
      DrainedBlocks(cfg, s);
    }
  }
}
