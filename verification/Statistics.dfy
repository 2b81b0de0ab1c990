/**
 The statistics that each dnsperf client keeps, their sum over all clients, and the division of the configured
 limits among the clients.
 */
module Statistics {

  import opened Sums

  const RCODES: nat := 16

  datatype Stats = Stats(
    rcodes: seq<nat>, sent: nat, interrupted: nat, timedout: nat, completed: nat,
    requestSize: nat, responseSize: nat,
    latencySum: nat, latencySumSquares: nat, latencyMin: nat, latencyMax: nat)

  function Zero(): Stats {
    Stats(seq(RCODES, _ => 0), 0, 0, 0, 0, 0, 0, 0, 0, 0, 0)
  }

  /** One completed query, as do_recv counts it. */
  datatype Completion = Completion(rcode: nat, size: nat, latency: nat)

  predicate ValidCompletion(c: Completion) {
    c.rcode < RCODES
  }

  function Complete(s: Stats, c: Completion): Stats
    requires |s.rcodes| == RCODES && ValidCompletion(c)
  {
    s.(completed := s.completed + 1,
       responseSize := s.responseSize + c.size,
       rcodes := s.rcodes[c.rcode := s.rcodes[c.rcode] + 1],
       latencySum := s.latencySum + c.latency,
       latencySumSquares := s.latencySumSquares + c.latency * c.latency,
       latencyMin := if c.latency < s.latencyMin || s.completed + 1 == 1 then c.latency else s.latencyMin,
       latencyMax := if c.latency > s.latencyMax then c.latency else s.latencyMax)
  }

  /** The statistics of a client that has seen these completions, in order. */
  function After(cs: seq<Completion>): (s: Stats)
    requires forall c :: c in cs ==> ValidCompletion(c)
    ensures |s.rcodes| == RCODES
  {
    if cs == [] then Zero() else Complete(After(cs[..|cs| - 1]), cs[|cs| - 1])
  }

  function Plus(a: seq<nat>, b: seq<nat>): seq<nat>
    requires |a| == |b|
  {
    seq(|a|, i requires 0 <= i < |a| => a[i] + b[i])
  }

  lemma {:induction false} SumPlus(a: seq<nat>, b: seq<nat>)
    requires |a| == |b|
    ensures Sum(Plus(a, b)) == Sum(a) + Sum(b)
  {
    if a != [] {
      SumPlus(a[1..], b[1..]);
      assert Plus(a, b)[1..] == Plus(a[1..], b[1..]);
    }
  }

  /** What makes the reported figures sensible: the response codes add up, and the variance is not negative. */
  ghost predicate Sensible(s: Stats) {
    && |s.rcodes| == RCODES && Sum(s.rcodes) == s.completed
    && s.latencySum * s.latencySum <= s.completed * s.latencySumSquares
    && (s.completed == 0 ==> s.latencySum == 0 && s.latencySumSquares == 0)
  }

  ghost predicate Bounded(s: Stats) {
    && s.completed * s.latencyMin <= s.latencySum <= s.completed * s.latencyMax
    && (s.completed > 0 ==> s.latencyMin <= s.latencyMax)
  }

  /** Cauchy-Schwarz, one sample at a time: if S*S <= n*Q then (S+x)*(S+x) <= (n+1)*(Q+x*x). */
  lemma OneMoreSample(n: nat, S: nat, Q: nat, x: nat)
    requires S * S <= n * Q && (n == 0 ==> S == 0)
    ensures (S + x) * (S + x) <= (n + 1) * (Q + x * x)
  {
    TwoSamples(n, S, Q, 1, x, x * x);
  }

  /** The general step: the bound for two groups of samples gives the bound for both together. */
  lemma TwoSamples(n: nat, S: nat, Q: nat, m: nat, T: nat, R: nat)
    requires S * S <= n * Q && T * T <= m * R && (n == 0 ==> S == 0) && (m == 0 ==> T == 0)
    ensures (S + T) * (S + T) <= (n + m) * (Q + R)
  {
    CrossTerm(n, S, Q, m, T, R);
    assert (S + T) * (S + T) == S * S + 2 * (S * T) + T * T;
    assert (n + m) * (Q + R) == n * Q + n * R + m * Q + m * R;
  }

  lemma CrossTerm(n: nat, S: nat, Q: nat, m: nat, T: nat, R: nat)
    requires S * S <= n * Q && T * T <= m * R && (n == 0 ==> S == 0) && (m == 0 ==> T == 0)
    ensures 2 * (S * T) <= n * R + m * Q
  {
    if n == 0 || m == 0 {
      assert S * T == 0;
    } else {
      var a, b := m * S, n * T;
      assert (a - b) * (a - b) >= 0;
      assert 2 * (a * b) <= a * a + b * b by {
        assert (a - b) * (a - b) == a * a - 2 * (a * b) + b * b;
      }
      Scaled(n, S, Q, m, T, R);
    }
  }

  lemma Swap(a: int, b: int, c: int, d: int)
    ensures (a * b) * (c * d) == (a * c) * (b * d)
  {
    assert (a * b) * (c * d) == a * (b * (c * d)) == a * (c * (b * d)) by {
      assert b * (c * d) == c * (b * d);
    }
  }

  lemma Scaled(n: nat, S: nat, Q: nat, m: nat, T: nat, R: nat)
    requires n > 0 && m > 0 && S * S <= n * Q && T * T <= m * R
    requires 2 * ((m * S) * (n * T)) <= (m * S) * (m * S) + (n * T) * (n * T)
    ensures 2 * (S * T) <= n * R + m * Q
  {
    var k, x, y, z := m * n, S * T, n * R, m * Q;
    assert 2 * (k * x) <= k * z + k * y by {
      Swap(m, S, n, T);
      Swap(m, S, m, S);
      Swap(n, T, n, T);
      MulLe(m * m, S * S, n * Q);
      MulLe(n * n, T * T, m * R);
      Swap(m, m, n, Q);
      Swap(n, n, m, R);
      assert n * m == m * n;
    }
    Factor(k, x, y, z);
    Cancel(k, 2 * x, y + z);
  }

  lemma Factor(k: int, x: int, y: int, z: int)
    ensures 2 * (k * x) == k * (2 * x) && k * z + k * y == k * (y + z)
  {
  }

  lemma MulLe(k: nat, a: int, b: int)
    requires a <= b
    ensures k * a <= k * b
  {
  }

  lemma Cancel(k: nat, a: int, b: int)
    requires k > 0 && k * a <= k * b
    ensures a <= b
  {
    if a > b {
      MulLe(k, b + 1, a);
    }
  }

  lemma CompleteSensible(s: Stats, c: Completion)
    requires Sensible(s) && ValidCompletion(c)
    ensures Sensible(Complete(s, c))
  {
    SumAt(s.rcodes, c.rcode, s.rcodes[c.rcode] + 1);
    OneMoreSample(s.completed, s.latencySum, s.latencySumSquares, c.latency);
  }

  lemma OneMoreBounded(n: nat, S: nat, lo: nat, hi: nat, x: nat, lo': nat, hi': nat)
    requires n * lo <= S <= n * hi && (n > 0 ==> lo' <= lo) && hi <= hi' && lo' <= x <= hi'
    ensures (n + 1) * lo' <= S + x <= (n + 1) * hi'
  {
    if n > 0 {
      MulLe(n, lo', lo);
    }
    MulLe(n, hi, hi');
    assert (n + 1) * lo' == n * lo' + lo' && (n + 1) * hi' == n * hi' + hi';
  }

  lemma CompleteBounded(s: Stats, c: Completion)
    requires |s.rcodes| == RCODES && Bounded(s) && ValidCompletion(c)
    ensures Bounded(Complete(s, c))
  {
    var s' := Complete(s, c);
    OneMoreBounded(s.completed, s.latencySum, s.latencyMin, s.latencyMax, c.latency, s'.latencyMin, s'.latencyMax);
  }

  /** Whatever a client has seen: its codes add up, its variance is not negative, and its mean is between min and max. */
  lemma {:induction false} ClientStats(cs: seq<Completion>)
    requires forall c :: c in cs ==> ValidCompletion(c)
    ensures Sensible(After(cs)) && Bounded(After(cs)) && After(cs).completed == |cs|
  {
    if cs == [] {
      SumZero(RCODES);
    } else {
      ClientStats(cs[..|cs| - 1]);
      CompleteSensible(After(cs[..|cs| - 1]), cs[|cs| - 1]);
      CompleteBounded(After(cs[..|cs| - 1]), cs[|cs| - 1]);
    }
  }

  /** The body of the outer loop of sum_stats. */
  function Merged(t: Stats, s: Stats): Stats
    requires |t.rcodes| == |s.rcodes|
  {
    Stats(Plus(t.rcodes, s.rcodes), t.sent + s.sent, t.interrupted + s.interrupted, t.timedout + s.timedout,
          t.completed + s.completed, t.requestSize + s.requestSize, t.responseSize + s.responseSize,
          t.latencySum + s.latencySum, t.latencySumSquares + s.latencySumSquares,
          t.latencyMin + s.latencyMin, t.latencyMax + s.latencyMax)
  }

  function Total(threads: seq<Stats>): (t: Stats)
    requires forall s :: s in threads ==> |s.rcodes| == RCODES
    ensures |t.rcodes| == RCODES
  {
    if threads == [] then Zero() else Merged(Total(threads[..|threads| - 1]), threads[|threads| - 1])
  }

  /** sum_stats */
  method SumStats(threads: seq<Stats>) returns (total: Stats)
    requires forall s :: s in threads ==> |s.rcodes| == RCODES
    ensures total == Total(threads)
  {
    total := Zero();
    for i := 0 to |threads|
      invariant |total.rcodes| == RCODES && total == Total(threads[..i])
    {
      var stats := threads[i];
      var rcodes := total.rcodes;
      for j := 0 to RCODES
        invariant |rcodes| == RCODES
        invariant forall k :: 0 <= k < RCODES ==> rcodes[k] == total.rcodes[k] + if k < j then stats.rcodes[k] else 0
      {
        rcodes := rcodes[j := rcodes[j] + stats.rcodes[j]];
      }
      assert rcodes == Plus(total.rcodes, stats.rcodes);
      assert threads[..i + 1][..i] == threads[..i];
      total := total.(rcodes := rcodes,
                      sent := total.sent + stats.sent, interrupted := total.interrupted + stats.interrupted,
                      timedout := total.timedout + stats.timedout, completed := total.completed + stats.completed,
                      requestSize := total.requestSize + stats.requestSize,
                      responseSize := total.responseSize + stats.responseSize,
                      latencySum := total.latencySum + stats.latencySum,
                      latencySumSquares := total.latencySumSquares + stats.latencySumSquares,
                      latencyMin := total.latencyMin + stats.latencyMin,
                      latencyMax := total.latencyMax + stats.latencyMax);
    }
    assert threads[..|threads|] == threads;
  }

  lemma MergedSensible(t: Stats, s: Stats)
    requires Sensible(t) && Sensible(s)
    ensures Sensible(Merged(t, s))
  {
    SumPlus(t.rcodes, s.rcodes);
    TwoSamples(t.completed, t.latencySum, t.latencySumSquares, s.completed, s.latencySum, s.latencySumSquares);
  }

  /** The sum over any set of clients is as sensible as each of them. */
  lemma {:induction false} TotalSensible(threads: seq<Stats>)
    requires forall s :: s in threads ==> |s.rcodes| == RCODES && Sensible(s)
    ensures Sensible(Total(threads))
  {
    if threads == [] {
      SumZero(RCODES);
    } else {
      TotalSensible(threads[..|threads| - 1]);
      MergedSensible(Total(threads[..|threads| - 1]), threads[|threads| - 1]);
    }
  }

  /** What stddev takes the square root of. */
  function Variance(sumSquares: real, sum: real, total: real): real
    requires total > 1.0
  {
    (sumSquares - (sum * sum) / total) / (total - 1.0)
  }

  lemma VarianceSign(Q: real, S: real, n: real)
    requires n > 1.0 && S * S <= n * Q
    ensures Variance(Q, S, n) >= 0.0
  {
    assert (S * S) / n <= Q;
    NotNegative(Q - (S * S) / n, n - 1.0);
  }

  lemma NotNegative(a: real, d: real)
    requires a >= 0.0 && d > 0.0
    ensures a / d >= 0.0
  {
  }

  /** stddev never takes the square root of a negative number. */
  lemma VarianceNotNegative(s: Stats)
    requires Sensible(s) && s.completed > 1
    ensures Variance(s.latencySumSquares as real, s.latencySum as real, s.completed as real) >= 0.0
  {
    var S, Q, n := s.latencySum as real, s.latencySumSquares as real, s.completed as real;
    assert (s.latencySum * s.latencySum) as real == S * S;
    assert (s.completed * s.latencySumSquares) as real == n * Q;
    VarianceSign(Q, S, n);
  }

  /** The fields that do not depend on which client saw which completion. */
  ghost predicate SameTotals(a: Stats, b: Stats) {
    && a.rcodes == b.rcodes && a.completed == b.completed && a.responseSize == b.responseSize
    && a.latencySum == b.latencySum && a.latencySumSquares == b.latencySumSquares
  }

  lemma CompleteAlike(a: Stats, b: Stats, c: Completion)
    requires |a.rcodes| == RCODES && ValidCompletion(c) && SameTotals(a, b)
    ensures SameTotals(Complete(a, c), Complete(b, c))
  {
  }

  lemma MergeThenComplete(a: Stats, b: Stats, c: Completion)
    requires |a.rcodes| == |b.rcodes| == RCODES && ValidCompletion(c)
    ensures SameTotals(Merged(a, Complete(b, c)), Complete(Merged(a, b), c))
  {
    var x, y := a.rcodes, b.rcodes;
    assert Plus(x, y[c.rcode := y[c.rcode] + 1]) == Plus(x, y)[c.rcode := Plus(x, y)[c.rcode] + 1];
  }

  /** Adding up two clients gives the same totals as one client that sees both lists of completions. */
  lemma {:induction false} MergedIsConcat(a: seq<Completion>, b: seq<Completion>)
    requires forall c :: c in a + b ==> ValidCompletion(c)
    requires (forall c :: c in a ==> ValidCompletion(c)) && (forall c :: c in b ==> ValidCompletion(c))
    ensures SameTotals(Merged(After(a), After(b)), After(a + b))
  {
    if b == [] {
      assert a + b == a;
      assert Plus(After(a).rcodes, Zero().rcodes) == After(a).rcodes;
    } else {
      var b', c := b[..|b| - 1], b[|b| - 1];
      assert c in b && (a + b)[..|a + b| - 1] == a + b' && (a + b)[|a + b| - 1] == c;
      MergedIsConcat(a, b');
      MergeThenComplete(After(a), After(b'), c);
      CompleteAlike(Merged(After(a), After(b')), After(a + b'), c);
    }
  }

  /** threadinfo_init: the share of client `offset` in a configured total. */
  function Share(total: nat, clients: nat, offset: nat): nat
    requires clients > 0
  {
    total / clients + if total % clients > offset then 1 else 0
  }

  /** setup: no more clients than queries per second. */
  function Clients(maxQps: nat, clients: nat): nat {
    if maxQps > 0 && clients > maxQps then maxQps else clients
  }

  function SharesUpTo(total: nat, clients: nat, n: nat): nat
    requires clients > 0
  {
    if n == 0 then 0 else SharesUpTo(total, clients, n - 1) + Share(total, clients, n - 1)
  }

  lemma {:induction false} SharesPartial(total: nat, clients: nat, n: nat)
    requires clients > 0
    ensures SharesUpTo(total, clients, n) == n * (total / clients) + if n < total % clients then n else total % clients
  {
    if n > 0 {
      SharesPartial(total, clients, n - 1);
      assert n * (total / clients) == (n - 1) * (total / clients) + total / clients;
    }
  }

  /** The shares add up to the configured total; and none is zero, which would mean no limit, after the clamp. */
  lemma SharesAddUp(total: nat, clients: nat)
    requires clients > 0
    ensures SharesUpTo(total, clients, clients) == total
    ensures forall i :: 0 <= i < Clients(total, clients) && total > 0 ==> Share(total, Clients(total, clients), i) > 0
  {
    SharesPartial(total, clients, clients);
  }

  /** One million, the microseconds in a second. */
  const MILLION: nat := 1000000

  /** What the rate limiter sees: a client passes its test at a time and sends, or takes back a failed send. */
  datatype RateStep = Sent(client: nat, at: nat) | Unsent(client: nat)

  /** do_send, lines 585-595: the client has waited until the time its next query is due. */
  predicate MaySend(sent: nat, qps: nat, elapsed: nat)
    requires qps > 0
  {
    (MILLION * sent) / qps <= elapsed
  }

  datatype Rates = Rates(sent: seq<nat>, elapsed: nat)

  predicate CanRate(maxQps: nat, s: Rates, step: RateStep)
    requires |s.sent| > 0
  {
    match step
    case Sent(i, at) =>
      && i < |s.sent| && s.elapsed <= at && Share(maxQps, |s.sent|, i) > 0
      && MaySend(s.sent[i], Share(maxQps, |s.sent|, i), at)
    case Unsent(i) => i < |s.sent| && s.sent[i] > 0
  }

  function RateStepped(s: Rates, step: RateStep): (r: Rates)
    requires step.client < |s.sent| && (step.Unsent? ==> s.sent[step.client] > 0)
    ensures |r.sent| == |s.sent|
  {
    match step
    case Sent(i, at) => Rates(s.sent[i := s.sent[i] + 1], at)
    case Unsent(i) => s.(sent := s.sent[i := s.sent[i] - 1])
  }

  predicate RateRun(maxQps: nat, s: Rates, run: seq<RateStep>)
    requires |s.sent| > 0
    decreases |run|
  {
    run == [] || (CanRate(maxQps, s, run[0]) && RateRun(maxQps, RateStepped(s, run[0]), run[1..]))
  }

  function RateEnd(maxQps: nat, s: Rates, run: seq<RateStep>): (r: Rates)
    requires |s.sent| > 0 && RateRun(maxQps, s, run)
    ensures |r.sent| == |s.sent|
    decreases |run|
  {
    if run == [] then s else RateEnd(maxQps, RateStepped(s, run[0]), run[1..])
  }

  /** Each client is within its share, counting one query ahead of it. */
  ghost predicate WithinShares(maxQps: nat, s: Rates)
    requires |s.sent| > 0
  {
    forall i :: 0 <= i < |s.sent| && Share(maxQps, |s.sent|, i) > 0 ==>
      MILLION * s.sent[i] - MILLION < Share(maxQps, |s.sent|, i) * (s.elapsed + 1)
  }

  lemma DueByThen(sent: nat, qps: nat, elapsed: nat)
    requires qps > 0 && MaySend(sent, qps, elapsed)
    ensures MILLION * sent < qps * (elapsed + 1)
  {
    var n := MILLION * sent;
    assert n == qps * (n / qps) + n % qps;
    MulLe(qps, n / qps, elapsed);
    assert qps * (elapsed + 1) == qps * elapsed + qps;
  }

  lemma RateStepWithin(maxQps: nat, s: Rates, step: RateStep)
    requires |s.sent| > 0 && WithinShares(maxQps, s) && CanRate(maxQps, s, step)
    ensures WithinShares(maxQps, RateStepped(s, step))
  {
    var s' := RateStepped(s, step);
    forall i | 0 <= i < |s.sent| && Share(maxQps, |s.sent|, i) > 0
      ensures MILLION * s'.sent[i] - MILLION < Share(maxQps, |s.sent|, i) * (s'.elapsed + 1)
    {
      MulLe(Share(maxQps, |s.sent|, i), s.elapsed + 1, s'.elapsed + 1);
      if step.Sent? && step.client == i {
        DueByThen(s.sent[i], Share(maxQps, |s.sent|, i), step.at);
      }
    }
  }

  lemma {:induction false} RateRunWithin(maxQps: nat, s: Rates, run: seq<RateStep>)
    requires |s.sent| > 0 && WithinShares(maxQps, s) && RateRun(maxQps, s, run)
    ensures WithinShares(maxQps, RateEnd(maxQps, s, run))
    decreases |run|
  {
    if run != [] {
      RateStepWithin(maxQps, s, run[0]);
      RateRunWithin(maxQps, RateStepped(s, run[0]), run[1..]);
    }
  }

  lemma Distribute(a: int, b: int, k: int)
    ensures (a + b) * k == a * k + b * k
  {
  }

  lemma {:induction false} AddShares(maxQps: nat, s: Rates, n: nat)
    requires n <= |s.sent| && |s.sent| > 0 && WithinShares(maxQps, s)
    requires forall i :: 0 <= i < |s.sent| ==> Share(maxQps, |s.sent|, i) > 0
    ensures MILLION * Sum(s.sent[..n]) - MILLION * n + n <= SharesUpTo(maxQps, |s.sent|, n) * (s.elapsed + 1)
  {
    if n > 0 {
      AddShares(maxQps, s, n - 1);
      assert Sum(s.sent[..n]) == Sum(s.sent[..n - 1]) + s.sent[n - 1] by {
        SumSnoc(s.sent[..n - 1], s.sent[n - 1]);
        assert s.sent[..n] == s.sent[..n - 1] + [s.sent[n - 1]];
      }
      Distribute(SharesUpTo(maxQps, |s.sent|, n - 1), Share(maxQps, |s.sent|, n - 1), s.elapsed + 1);
      assert MILLION * s.sent[n - 1] - MILLION < Share(maxQps, |s.sent|, n - 1) * (s.elapsed + 1);
    }
  }

  lemma {:induction false} SumSnoc(ns: seq<nat>, x: nat)
    ensures Sum(ns + [x]) == Sum(ns) + x
  {
    if ns != [] {
      SumSnoc(ns[1..], x);
      assert (ns + [x])[1..] == ns[1..] + [x];
    }
  }

  /** At any time of any run, all clients together are less than one query each ahead of the configured rate. */
  lemma RateLimit(maxQps: nat, clients: nat, run: seq<RateStep>)
    requires 0 < clients <= maxQps && RateRun(maxQps, Rates(seq(clients, _ => 0), 0), run)
    ensures var s := RateEnd(maxQps, Rates(seq(clients, _ => 0), 0), run);
      MILLION * (Sum(s.sent) - clients) < maxQps * (s.elapsed + 1)
  {
    var s0 := Rates(seq(clients, _ => 0), 0);
    RateRunWithin(maxQps, s0, run);
    var s := RateEnd(maxQps, s0, run);
    SharesAddUp(maxQps, clients);
    AddShares(maxQps, s, clients);
    assert s.sent[..clients] == s.sent;
  }
}
