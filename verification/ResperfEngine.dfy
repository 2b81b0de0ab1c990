/**
 resperf's loop on the linked lists themselves.  Every method does to the lists, the counters and the buckets what
 the C function does, and is proved to be the function of the same purpose in `Resperf`.
 */
module ResperfEngine {
  import opened IscList
  import opened QueryPool
  import opened PoolPasses
  import opened QueryTables
  import opened Resperf

  class Engine {
    const cfg: Config
    const table: QueryTable
    var buckets: seq<Bucket>
    var phase: Phase
    var numSent: nat
    var numOutstanding: int
    var numTimedOut: nat
    var now: nat
    const start: nat
    var waitBegan: nat
    ghost var lost: seq<nat>
    ghost var late: nat

    ghost function Abs(): State
      reads this, table, table.unused, table.outstanding
    {
      State(table.View(), buckets, phase, numSent, numOutstanding, numTimedOut, now, start, waitBegan, lost, late)
    }

    constructor (cfg: Config, now: nat)
      requires ValidConfig(cfg)
      ensures table.Valid() && fresh(table) && fresh(table.links) && fresh(table.unused) && fresh(table.outstanding)
      ensures this.cfg == cfg && Abs() == Begin(cfg, now)
    {
      this.cfg := cfg;
      table := new QueryTable(cfg.nqids);
      buckets := seq(cfg.NBuckets(), _ => Bucket(0, 0, 0, 0.0));
      phase, numSent, numOutstanding, numTimedOut := Ramp, 0, 0, 0;
      this.now, start, waitBegan := now, now, 0;
      lost, late := seq(cfg.NBuckets(), _ => 0), 0;
    }

    /** enter_wait_phase */
    method EnterWaitPhase()
      modifies this
      ensures Abs() == EnterWait(old(Abs()))
    {
      phase := Wait;
      waitBegan := now;
    }

    /** do_one_line, lines 414-440: what becomes of the first unused id */
    method SendHead(send: Send) returns (q: int)
      requires table.Valid()
      modifies table, table.links, table.unused, table.outstanding
      ensures table.Valid() && (q == NULL <==> old(table.View()).unused == [])
      ensures table.View() == SendPool(old(table.View()), send, now)
    {
      q := table.Head();
      if q == NULL || send.BuildFailed? {
        return;
      }
      table.SetStamp(q, At(now));
      if send.SendFailed? {
        return;
      }
      table.Move(q, PrependOutstanding);
    }

    /** do_one_line after it has a line, and what main does with its result */
    method DoOneLine(send: Send)
      requires ValidConfig(cfg) && table.Valid()
      modifies this, table, table.links, table.unused, table.outstanding
      ensures table.Valid() && Abs() == SendOne(cfg, old(Abs()), send)
    {
      var q := SendHead(send);
      if q == NULL {
        EnterWaitPhase();
      } else if send.Built? {
        numSent := numSent + 1;
        numOutstanding := numOutstanding + 1;
        buckets := CountQuery(buckets, FindBucket(cfg, start, now));
        late := late + if Elapsed(Abs()) >= cfg.TrafficTime() then 1 else 0;
      }
    }

    /** try_process_response */
    method TryProcessResponse(r: Reply)
      requires ValidConfig(cfg) && table.Valid() && (r.Reply? ==> r.qid < |table.stamp|)
      modifies this, table, table.links, table.unused, table.outstanding
      ensures table.Valid() && Abs() == HandleReply(cfg, old(Abs()), r)
    {
      if r.NoReply? || r.short {
        return;
      }
      if table.list[r.qid] != table.outstanding {
        return;
      }
      var when := When(Pool([], [], table.stamp), r.qid);
      table.Move(r.qid, AppendUnused);
      numOutstanding := numOutstanding - 1;
      var latency := ((now - when) as real) / MILLION;
      buckets := CountReply(buckets, FindBucket(cfg, start, when), Answered(r.rcode), latency);
    }

    /** The loop of retire_old_queries, with the number of queries retired. */
    method RetireLoop() returns (n: nat)
      requires table.Valid()
      modifies table, table.links, table.unused, table.outstanding
      ensures table.Valid() && table.View() == RetireTail(old(table.View()), now - cfg.timeout).0
      ensures n == RetireTail(old(table.View()), now - cfg.timeout).1
    {
      ghost var cutoff, p := now - cfg.timeout, table.View();
      ghost var goal := RetireTail(p, cutoff);
      n := 0;
      var q := table.Tail();
      while q != NULL && table.stamp[q].At? && now - table.stamp[q].when >= cfg.timeout
        invariant table.Valid() && table.IsTail(q) && table.View() == p
        invariant RetireTail(p, cutoff).0 == goal.0 && RetireTail(p, cutoff).1 + n == goal.1
        decreases |p.outstanding|
      {
        q := table.DropLast(q);
        n := n + 1;
        p := DropTail(p);
      }
    }

    /** retire_old_queries */
    method RetireOldQueries()
      requires ValidConfig(cfg) && table.Valid()
      modifies this, table, table.links, table.unused, table.outstanding
      ensures table.Valid() && Abs() == Retire(cfg, old(Abs()))
    {
      lost := Lose(cfg, start, table.View(), now - cfg.timeout, lost);
      var n := RetireLoop();
      numOutstanding, numTimedOut := numOutstanding - n, numTimedOut + n;
    }

    /** The traffic part of a round of main's loop. */
    method SendTraffic(send: Send)
      requires ValidConfig(cfg) && table.Valid()
      modifies this, table, table.links, table.unused, table.outstanding
      ensures table.Valid() && Abs() == Traffic(cfg, old(Abs()), send)
    {
      if phase.Wait? {
        return;
      }
      var shouldSend := NumScheduled(cfg, phase, if now >= start then now - start else 0) - numSent;
      if shouldSend >= 1000 {
        EnterWaitPhase();
      }
      if shouldSend > 0 {
        DoOneLine(send);
      }
    }

    /** The switch on the phase; true ends the loop. */
    method SwitchPhase() returns (exit: bool)
      modifies this
      ensures exit == Switch(cfg, old(phase), Elapsed(old(Abs()))).Exit?
      ensures Abs() == if exit then old(Abs()) else AfterSwitch(cfg, old(Abs()))
    {
      var t := if now >= start then now - start else 0;
      match phase {
        case Ramp =>
          if t >= cfg.rampTime {
            phase := Sustain;
          }
          return false;
        case Sustain =>
          if t >= cfg.TrafficTime() {
            EnterWaitPhase();
          }
          return false;
        case Wait =>
          return t >= cfg.EndTime();
      }
    }

    /** One round of main's loop. */
    method RunRound(r: Round) returns (exit: bool)
      requires ValidConfig(cfg) && table.Valid() && (r.reply.Reply? ==> r.reply.qid < |table.stamp|)
      modifies this, table, table.links, table.unused, table.outstanding
      ensures table.Valid() && exit == Switch(cfg, old(phase), Elapsed(old(Abs()))).Exit?
      ensures Abs() == if exit then old(Abs()) else Step(cfg, old(Abs()), r)
    {
      exit := SwitchPhase();
      if exit {
        return;
      }
      SendTraffic(r.send);
      TryProcessResponse(r.reply);
      RetireOldQueries();
      now := r.clock;
    }
  }
}
