/**
 The worker simulator: jobs arrive with a period and three usages, a tick takes one off every period and removes
 the jobs that reach zero, and a dump thread writes the running totals.

 The tick deletes from the array it is iterating over, so the job behind a deleted one is passed over in that tick.
 */
module Simulator {

  datatype Job = Job(cpu: real, io: real, traffic: real, period: int)

  datatype Load = Load(num: int, jobs: seq<Job>, cpu: real, io: real, traffic: real)

  /** The placeholder job with which each known worker starts. */
  function Idle(): Load {
    Load(1, [Job(0.0, 0.0, 0.0, 0)], 0.0, 0.0, 0.0)
  }

  /** A worker first heard of through its first job. */
  function FirstJob(j: Job): Load {
    Load(1, [j], j.cpu, j.io, j.traffic)
  }

  function Older(j: Job): Job {
    j.(period := j.period - 1)
  }

  /** The removal of a finished job, with its special case for the last one. */
  function Removed(w: Load, i: nat): Load
    requires i < |w.jobs|
  {
    var jobs := w.jobs[..i] + w.jobs[i + 1..];
    if w.num == 1 then Load(0, jobs, 0.0, 0.0, 0.0)
    else Load(w.num - 1, jobs, w.cpu - w.jobs[i].cpu, w.io - w.jobs[i].io, w.traffic - w.jobs[i].traffic)
  }

  /** The body of each_index for index i. */
  function TickAt(w: Load, i: nat): Load
    requires i < |w.jobs|
  {
    var w1 := w.(jobs := w.jobs[i := Older(w.jobs[i])]);
    if w1.jobs[i].period == 0 then Removed(w1, i) else w1
  }

  /** each_index from i on: it stops at what is then the end of the array. */
  function TickFrom(w: Load, i: nat): Load
    decreases |w.jobs| - i
  {
    if i >= |w.jobs| then w else TickFrom(TickAt(w, i), i + 1)
  }

  function Tick(w: Load): Load {
    if w.num > 0 then TickFrom(w, 0) else w
  }

  predicate Over(w: Load) {
    w.cpu > 255.0 || w.io > 255.0 || w.traffic > 255.0
  }

  /** A job for a known worker: appended and added up; above 255 only the cpu total is reset. */
  function Admit(w: Load, j: Job): Load
    requires w.num == |w.jobs|
  {
    var w1 := Load(w.num + 1, w.jobs + [j], w.cpu + j.cpu, w.io + j.io, w.traffic + j.traffic);
    if Over(w1) then w1.(cpu := 0.0) else w1
  }

  /** The clamp of the dump thread. */
  function Dump(w: Load): Load {
    if w.cpu <= 0.0 || w.io <= 0.0 || w.traffic <= 0.0 then w.(cpu := 0.0, io := 0.0, traffic := 0.0) else w
  }

  /** The jobs after a tick: a finished job goes, and the one behind it is passed over. */
  function TickJobs(jobs: seq<Job>): seq<Job> {
    if jobs == [] then []
    else if jobs[0].period != 1 then [Older(jobs[0])] + TickJobs(jobs[1..])
    else if |jobs| == 1 then []
    else [jobs[1]] + TickJobs(jobs[2..])
  }

  lemma Shift(jobs: seq<Job>, jobs': seq<Job>, i: nat, x: Job, rest: seq<Job>)
    requires i <= |jobs| && i < |jobs'| && jobs'[..i + 1] == jobs[..i] + [x]
    ensures jobs'[..i + 1] + rest == jobs[..i] + ([x] + rest)
  {
  }

  lemma TickAtJobs(w: Load, i: nat)
    requires i < |w.jobs|
    ensures w.jobs[i].period != 1 ==> TickAt(w, i).jobs == w.jobs[i := Older(w.jobs[i])]
    ensures w.jobs[i].period == 1 ==> TickAt(w, i).jobs == w.jobs[..i] + w.jobs[i + 1..]
  {
  }

  /** Deleting while iterating, told without indices. */
  lemma {:induction false} TickFromJobs(w: Load, i: nat)
    requires i <= |w.jobs|
    ensures TickFrom(w, i).jobs == w.jobs[..i] + TickJobs(w.jobs[i..])
    decreases |w.jobs| - i
  {
    if i == |w.jobs| {
      assert w.jobs[..i] + [] == w.jobs;
    } else {
      TickAtJobs(w, i);
      var w', tail := TickAt(w, i), w.jobs[i..];
      assert tail[0] == w.jobs[i];
      if w.jobs[i].period != 1 {
        TickFromJobs(w', i + 1);
        assert w'.jobs[i + 1..] == tail[1..];
        Shift(w.jobs, w'.jobs, i, Older(tail[0]), TickJobs(tail[1..]));
      } else if |tail| == 1 {
        assert w'.jobs == w.jobs[..i] + [];
      } else {
        TickFromJobs(w', i + 1);
        assert w'.jobs[i + 1..] == tail[2..];
        Shift(w.jobs, w'.jobs, i, tail[1], TickJobs(tail[2..]));
      }
    }
  }

  /** Where the job at index k is after a tick. */
  datatype Fate = Gone | At(pos: nat)

  function Behind(f: Fate): Fate {
    match f
    case Gone => Gone
    case At(pos) => At(pos + 1)
  }

  function Follow(jobs: seq<Job>, k: nat): Fate
    requires k < |jobs|
    decreases |jobs|
  {
    if k == 0 then if jobs[0].period == 1 then Gone else At(0)
    else if jobs[0].period != 1 then Behind(Follow(jobs[1..], k - 1))
    else if k == 1 then At(0)
    else Behind(Follow(jobs[2..], k - 2))
  }

  /**
   One tick of a job at index k: it goes exactly if it was at its last period and was not passed over; if it is
   passed over, a job ahead of it has gone; and it never moves back.
   */
  lemma {:induction false} FollowMeans(jobs: seq<Job>, k: nat)
    requires k < |jobs|
    ensures match Follow(jobs, k)
      case Gone => jobs[k].period == 1
      case At(j) =>
        && j <= k && j < |TickJobs(jobs)|
        && ((TickJobs(jobs)[j] == Older(jobs[k]) && jobs[k].period != 1) || (TickJobs(jobs)[j] == jobs[k] && j < k))
    decreases |jobs|
  {
    if k > 0 {
      if jobs[0].period != 1 {
        FollowMeans(jobs[1..], k - 1);
      } else if k > 1 {
        FollowMeans(jobs[2..], k - 2);
      }
    }
  }

  datatype Event = Arrives(job: Job) | Ticks | Dumps

  function JobsAfter(jobs: seq<Job>, e: Event): seq<Job> {
    match e
    case Arrives(job) => jobs + [job]
    case Ticks => TickJobs(jobs)
    case Dumps => jobs
  }

  /** The life of the job at index k through a stretch of events, counted in ticks. */
  datatype Life = Ended(ticks: nat) | Living(jobs: seq<Job>, pos: nat, ticks: nat)

  function Longer(l: Life): Life {
    match l
    case Ended(n) => Ended(n + 1)
    case Living(jobs, pos, n) => Living(jobs, pos, n + 1)
  }

  function LifeOf(jobs: seq<Job>, k: nat, events: seq<Event>): Life
    requires k < |jobs|
    decreases |events|
  {
    if events == [] then Living(jobs, k, 0)
    else if events[0].Ticks? then
      FollowMeans(jobs, k);
      match Follow(jobs, k)
      case Gone => Ended(1)
      case At(j) => Longer(LifeOf(JobsAfter(jobs, Ticks), j, events[1..]))
    else LifeOf(JobsAfter(jobs, events[0]), k, events[1..])
  }

  /**
   A job with period p >= 1 and n jobs ahead of it is removed after at least p and at most p + n ticks, whatever
   else arrives, and as long as it lives its period is at least 1.
   */
  lemma {:induction false} Lifetime(jobs: seq<Job>, k: nat, events: seq<Event>)
    requires k < |jobs| && jobs[k].period >= 1
    ensures match LifeOf(jobs, k, events)
      case Ended(n) => jobs[k].period <= n <= jobs[k].period + k
      case Living(jobs', j, n) =>
        && j < |jobs'| && j <= k && jobs'[j].period >= 1
        && jobs[k].period - jobs'[j].period <= n <= jobs[k].period - jobs'[j].period + k - j
    decreases |events|
  {
    if events != [] {
      match events[0]
      case Arrives(job) => Lifetime(jobs + [job], k, events[1..]);
      case Dumps => Lifetime(jobs, k, events[1..]);
      case Ticks =>
        FollowMeans(jobs, k);
        match Follow(jobs, k)
        case Gone =>
        case At(j) => Lifetime(TickJobs(jobs), j, events[1..]);
    }
  }

  /** The array at the end of a life is the one the run leaves behind. */
  lemma {:induction false} LifeIsRun(w: Load, k: nat, events: seq<Event>)
    requires w.num == |w.jobs| && k < |w.jobs|
    ensures LifeOf(w.jobs, k, events).Living? ==> LifeOf(w.jobs, k, events).jobs == Run(w, events).jobs
    decreases |events|
  {
    if events != [] {
      var w' := Apply(w, events[0]);
      if events[0].Ticks? {
        FollowMeans(w.jobs, k);
        if Follow(w.jobs, k).At? {
          LifeIsRun(w', Follow(w.jobs, k).pos, events[1..]);
        }
      } else {
        LifeIsRun(w', k, events[1..]);
      }
    }
  }

  /** A job that arrives with no period left is never removed. */
  lemma {:induction false} NoPeriodNoEnd(jobs: seq<Job>, k: nat, events: seq<Event>)
    requires k < |jobs| && jobs[k].period <= 0
    ensures LifeOf(jobs, k, events).Living?
    decreases |events|
  {
    if events != [] {
      match events[0]
      case Arrives(job) => NoPeriodNoEnd(jobs + [job], k, events[1..]);
      case Dumps => NoPeriodNoEnd(jobs, k, events[1..]);
      case Ticks =>
        FollowMeans(jobs, k);
        NoPeriodNoEnd(TickJobs(jobs), Follow(jobs, k).pos, events[1..]);
    }
  }

  function SumCpu(jobs: seq<Job>): real {
    if jobs == [] then 0.0 else jobs[0].cpu + SumCpu(jobs[1..])
  }

  function SumIo(jobs: seq<Job>): real {
    if jobs == [] then 0.0 else jobs[0].io + SumIo(jobs[1..])
  }

  function SumTraffic(jobs: seq<Job>): real {
    if jobs == [] then 0.0 else jobs[0].traffic + SumTraffic(jobs[1..])
  }

  lemma {:induction false} SumSplit(a: seq<Job>, b: seq<Job>)
    ensures SumCpu(a + b) == SumCpu(a) + SumCpu(b)
    ensures SumIo(a + b) == SumIo(a) + SumIo(b)
    ensures SumTraffic(a + b) == SumTraffic(a) + SumTraffic(b)
  {
    if a == [] {
      assert a + b == b;
    } else {
      SumSplit(a[1..], b);
      assert (a + b)[1..] == a[1..] + b;
    }
  }

  /** The count is the length of the array, and the totals are the sums over the live jobs. */
  ghost predicate Exact(w: Load) {
    && w.num == |w.jobs|
    && w.cpu == SumCpu(w.jobs) && w.io == SumIo(w.jobs) && w.traffic == SumTraffic(w.jobs)
  }

  lemma SumsAround(jobs: seq<Job>, i: nat)
    requires i < |jobs|
    ensures var rest := jobs[..i] + jobs[i + 1..];
      && SumCpu(jobs) == SumCpu(rest) + jobs[i].cpu
      && SumIo(jobs) == SumIo(rest) + jobs[i].io
      && SumTraffic(jobs) == SumTraffic(rest) + jobs[i].traffic
  {
    SumSplit(jobs[..i], jobs[i..]);
    SumSplit(jobs[..i], jobs[i + 1..]);
    assert jobs == jobs[..i] + jobs[i..] && jobs[i..][1..] == jobs[i + 1..];
  }

  lemma TickAtExact(w: Load, i: nat)
    requires Exact(w) && i < |w.jobs|
    ensures Exact(TickAt(w, i))
  {
    var jobs := w.jobs[i := Older(w.jobs[i])];
    SumsAround(w.jobs, i);
    SumsAround(jobs, i);
    assert jobs[..i] == w.jobs[..i] && jobs[i + 1..] == w.jobs[i + 1..];
  }

  lemma {:induction false} TickFromExact(w: Load, i: nat)
    requires Exact(w)
    ensures Exact(TickFrom(w, i))
    decreases |w.jobs| - i
  {
    if i < |w.jobs| {
      TickAtExact(w, i);
      TickFromExact(TickAt(w, i), i + 1);
    }
  }

  predicate AdmitHarmless(w: Load, j: Job) {
    (w.cpu + j.cpu <= 255.0 && w.io + j.io <= 255.0 && w.traffic + j.traffic <= 255.0) || w.cpu + j.cpu == 0.0
  }

  /** Admitting a job keeps the totals exact if and only if no total passes 255, or the cpu total is zero anyway. */
  lemma AdmitExact(w: Load, j: Job)
    requires Exact(w)
    ensures Exact(Admit(w, j)) <==> AdmitHarmless(w, j)
  {
    SumSplit(w.jobs, [j]);
  }

  /** A job uses some of everything, or nothing at all like the placeholder. */
  predicate AllOrNothing(j: Job) {
    (j.cpu > 0.0 && j.io > 0.0 && j.traffic > 0.0) || (j.cpu == 0.0 && j.io == 0.0 && j.traffic == 0.0)
  }

  lemma {:induction false} SumsAllOrNothing(jobs: seq<Job>)
    requires forall j :: j in jobs ==> AllOrNothing(j)
    ensures (SumCpu(jobs) > 0.0 && SumIo(jobs) > 0.0 && SumTraffic(jobs) > 0.0)
      || (SumCpu(jobs) == 0.0 && SumIo(jobs) == 0.0 && SumTraffic(jobs) == 0.0)
  {
    if jobs != [] {
      assert AllOrNothing(jobs[0]);
      SumsAllOrNothing(jobs[1..]);
    }
  }

  predicate DumpHarmless(w: Load) {
    (w.cpu > 0.0 && w.io > 0.0 && w.traffic > 0.0) || (w.cpu == 0.0 && w.io == 0.0 && w.traffic == 0.0)
  }

  /** The dump clamp leaves exact totals exact if and only if it does nothing: no total is zero or less, or all are zero. */
  lemma DumpExact(w: Load)
    requires Exact(w)
    ensures Exact(Dump(w)) <==> DumpHarmless(w)
  {
  }

  lemma {:induction false} TickFromNum(w: Load, i: nat)
    requires w.num == |w.jobs|
    ensures TickFrom(w, i).num == |TickFrom(w, i).jobs|
    decreases |w.jobs| - i
  {
    if i < |w.jobs| {
      TickFromNum(TickAt(w, i), i + 1);
    }
  }

  /** Whatever happens, the count stays the length of the array, and the jobs change as JobsAfter says. */
  function Apply(w: Load, e: Event): (w': Load)
    requires w.num == |w.jobs|
    ensures w'.num == |w'.jobs| && w'.jobs == JobsAfter(w.jobs, e)
  {
    TickFromNum(w, 0);
    TickFromJobs(w, 0);
    assert w.jobs[..0] + TickJobs(w.jobs[0..]) == TickJobs(w.jobs) by { assert w.jobs[0..] == w.jobs; }
    match e
    case Arrives(job) => Admit(w, job)
    case Ticks => Tick(w)
    case Dumps => Dump(w)
  }

  lemma {:induction false} TickJobsAll(jobs: seq<Job>)
    requires forall j :: j in jobs ==> AllOrNothing(j)
    ensures forall j :: j in TickJobs(jobs) ==> AllOrNothing(j)
    decreases |jobs|
  {
    if jobs != [] {
      if jobs[0].period != 1 {
        assert AllOrNothing(jobs[0]);
        TickJobsAll(jobs[1..]);
      } else if |jobs| > 1 {
        assert AllOrNothing(jobs[1]);
        TickJobsAll(jobs[2..]);
      }
    }
  }

  ghost predicate Good(w: Load) {
    Exact(w) && forall j :: j in w.jobs ==> AllOrNothing(j)
  }

  lemma ApplyGood(w: Load, e: Event)
    requires Good(w)
    requires e.Arrives? ==> AllOrNothing(e.job) && AdmitHarmless(w, e.job)
    ensures Good(Apply(w, e)) && (e.Dumps? ==> Apply(w, e) == w)
  {
    match e
    case Arrives(job) => AdmitExact(w, job);
    case Ticks =>
      TickFromExact(w, 0);
      TickJobsAll(w.jobs);
    case Dumps => SumsAllOrNothing(w.jobs);
  }

  /** A run in which every job uses some of everything, or nothing, and no arrival trips the limit. */
  predicate Calm(w: Load, events: seq<Event>)
    requires w.num == |w.jobs|
    decreases |events|
  {
    events == [] ||
    (var e := events[0];
     && (e.Arrives? ==> AllOrNothing(e.job) && AdmitHarmless(w, e.job))
     && Calm(Apply(w, e), events[1..]))
  }

  function Run(w: Load, events: seq<Event>): (w': Load)
    requires w.num == |w.jobs|
    ensures w'.num == |w'.jobs|
    decreases |events|
  {
    if events == [] then w else Run(Apply(w, events[0]), events[1..])
  }

  /** Through every such run the totals are the sums over the live jobs, and no dump changes them. */
  lemma {:induction false} TotalsExact(w: Load, events: seq<Event>)
    requires Good(w) && Calm(w, events)
    ensures Good(Run(w, events)) && Dump(Run(w, events)) == Run(w, events)
    decreases |events|
  {
    if events == [] {
      ApplyGood(w, Dumps);
    } else {
      ApplyGood(w, events[0]);
      TotalsExact(Apply(w, events[0]), events[1..]);
    }
  }

  ghost predicate AlwaysExact(w: Load, events: seq<Event>)
    requires w.num == |w.jobs|
    decreases |events|
  {
    Exact(w) && (events == [] || AlwaysExact(Apply(w, events[0]), events[1..]))
  }

  /** Every job arrives below the limit, or at a cpu total of zero, and every dump finds all totals positive or all zero. */
  predicate Harmless(w: Load, events: seq<Event>)
    requires w.num == |w.jobs|
    decreases |events|
  {
    events == [] ||
    (var e := events[0];
     && (e.Arrives? ==> AdmitHarmless(w, e.job))
     && (e.Dumps? ==> DumpHarmless(w))
     && Harmless(Apply(w, e), events[1..]))
  }

  /** The totals are the sums over the live jobs all through a run exactly when no limit or clamp bites in it. */
  lemma {:induction false} ExactIffHarmless(w: Load, events: seq<Event>)
    requires Exact(w)
    ensures AlwaysExact(w, events) <==> Harmless(w, events)
    decreases |events|
  {
    if events != [] {
      var e := events[0];
      match e {
        case Arrives(job) => AdmitExact(w, job);
        case Dumps => DumpExact(w);
        case Ticks => TickFromExact(w, 0);
      }
      if Exact(Apply(w, e)) {
        ExactIffHarmless(Apply(w, e), events[1..]);
      }
    }
  }

  /** An element assignment to an array that may be at its end, where it appends. */
  function StoredAt(jobs: seq<Job>, i: nat, j: Job): (r: seq<Job>)
    requires i <= |jobs|
    ensures i < |r| && r[i] == j
  {
    if i < |jobs| then jobs[i := j] else jobs + [j]
  }

  class Worker {
    var loadsNum: int
    var loads: seq<Job>
    var cpuUsage: real
    var ioUsage: real
    var totalTraffic: real

    ghost function Abs(): Load
      reads this
    {
      Load(loadsNum, loads, cpuUsage, ioUsage, totalTraffic)
    }

    constructor ()
      ensures Abs() == Idle() && Good(Abs())
    {
      loadsNum, loads := 1, [Job(0.0, 0.0, 0.0, 0)];
      cpuUsage, ioUsage, totalTraffic := 0.0, 0.0, 0.0;
    }

    /** A worker that is not known before its first job; the job is not held against the limit. */
    constructor WithJob(j: Job)
      ensures Abs() == FirstJob(j) && Exact(Abs())
    {
      loadsNum, loads := 1, [j];
      cpuUsage, ioUsage, totalTraffic := j.cpu, j.io, j.traffic;
    }

    method Remove(i: nat)
      requires i < |loads|
      modifies this
      ensures Abs() == Removed(old(Abs()), i)
    {
      if loadsNum == 1 {
        cpuUsage, ioUsage, totalTraffic := 0.0, 0.0, 0.0;
      } else {
        cpuUsage := cpuUsage - loads[i].cpu;
        ioUsage := ioUsage - loads[i].io;
        totalTraffic := totalTraffic - loads[i].traffic;
      }
      loads := loads[..i] + loads[i + 1..];
      loadsNum := loadsNum - 1;
    }

    /** The tick thread's work on one worker. */
    method DoTick()
      modifies this
      ensures Abs() == Tick(old(Abs()))
    {
      if loadsNum > 0 {
        var i := 0;
        while i < |loads|
          invariant TickFrom(Abs(), i) == TickFrom(old(Abs()), 0)
          decreases |loads| - i
        {
          loads := loads[i := loads[i].(period := loads[i].period - 1)];
          if loads[i].period == 0 {
            Remove(i);
          }
          i := i + 1;
        }
      }
    }

    /**
     proc_workload_message for a known worker: the job is stored at the index that the count gives, which is the end of
     the array, and what is stored there is added up.
     */
    method AddJob(j: Job)
      requires loadsNum == |loads|
      modifies this
      ensures Abs() == Admit(old(Abs()), j) && loadsNum == |loads|
      ensures old(Exact(Abs())) ==> (Exact(Abs()) <==> old(AdmitHarmless(Abs(), j)))
    {
      ghost var w := Abs();
      loadsNum := loadsNum + 1;
      var loadNum := loadsNum - 1;
      loads := StoredAt(loads, loadNum, j);
      cpuUsage := cpuUsage + loads[loadNum].cpu;
      ioUsage := ioUsage + loads[loadNum].io;
      totalTraffic := totalTraffic + loads[loadNum].traffic;
      if cpuUsage > 255.0 || ioUsage > 255.0 || totalTraffic > 255.0 {
        cpuUsage := 0.0;
      }
      if Exact(w) {
        AdmitExact(w, j);
      }
    }

    /** The clamp of the dump thread, and the load that it writes to the file. */
    method DumpTotals() returns (load: real)
      modifies this
      ensures Abs() == Dump(old(Abs())) && load >= 0.0
      ensures load == 0.5 * cpuUsage + 0.25 * ioUsage + 0.25 * totalTraffic
      ensures old(Exact(Abs())) ==> (Exact(Abs()) <==> old(DumpHarmless(Abs())))
    {
      ghost var w := Abs();
      if cpuUsage <= 0.0 || ioUsage <= 0.0 || totalTraffic <= 0.0 {
        cpuUsage, ioUsage, totalTraffic := 0.0, 0.0, 0.0;
      }
      if Exact(w) {
        DumpExact(w);
      }
      return cpuUsage * 0.5 + ioUsage * 0.25 + totalTraffic * 0.25;
    }
  }
}
