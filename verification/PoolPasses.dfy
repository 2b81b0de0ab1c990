/**
 What one locked pass over the query pool does: the timeout scan, the claiming of a batch of
 responses and the final cancellation, with what each keeps of the pool.
 */
module PoolPasses {
  import opened IscList
  import opened QueryPool

  datatype Response = Response(qid: nat, short: bool)

  function Stamped(p: Pool, q: int, x: Stamp): Pool {
    if 0 <= q < |p.stamp| then p.(stamp := p.stamp[q := x]) else p
  }

  predicate IsSent(p: Pool, q: int) {
    0 <= q < |p.stamp| && p.stamp[q].At?
  }

  /** Sent at or before the cutoff. */
  predicate Old(p: Pool, q: int, cutoff: int) {
    IsSent(p, q) && p.stamp[q].when <= cutoff
  }

  /** The tail of the outstanding list. */
  function Tail(p: Pool): int
    requires p.outstanding != []
  {
    p.outstanding[|p.outstanding| - 1]
  }

  /** The tail moved to the end of the unused list. */
  function DropTail(p: Pool): Pool
    requires p.outstanding != []
  {
    p.(unused := p.unused + [Tail(p)], outstanding := p.outstanding[..|p.outstanding| - 1])
  }

  /** The timeout scan: as long as the tail is old, it goes. */
  function RetireTail(p: Pool, cutoff: int): (Pool, nat)
    decreases |p.outstanding|
  {
    if p.outstanding == [] || !Old(p, Tail(p), cutoff) then (p, 0)
    else
      var (p', n) := RetireTail(DropTail(p), cutoff);
      (p', n + 1)
  }

  predicate Expected(p: Pool, r: Response) {
    !r.short && r.qid in p.outstanding && IsSent(p, r.qid)
  }

  /** The locked loop of do_recv over a batch of responses. */
  function ClaimAll(p: Pool, batch: seq<Response>): (Pool, nat)
    decreases |batch|
  {
    if batch == [] then (p, 0)
    else if Expected(p, batch[0]) then
      var (p', n) := ClaimAll(QueryMove(p, batch[0].qid, AppendUnused), batch[1..]);
      (p', n + 1)
    else ClaimAll(p, batch[1..])
  }

  /** cancel_queries: every entry goes, and those that had been sent are counted. */
  function CancelAll(p: Pool): (Pool, nat)
    decreases |p.outstanding|
  {
    if p.outstanding == [] then (p, 0)
    else
      var (p', n) := CancelAll(DropTail(p));
      (p', n + if IsSent(p, Tail(p)) then 1 else 0)
  }

  /** How many of the listed ids are really sent, as against only reserved. */
  function SentIn(p: Pool, s: seq<int>): nat {
    if s == [] then 0 else (if IsSent(p, s[0]) then 1 else 0) + SentIn(p, s[1..])
  }

  lemma {:induction false} SentInWithout(p: Pool, s: seq<int>, q: int)
    requires q in s
    ensures SentIn(p, Without(s, q)) + (if IsSent(p, q) then 1 else 0) == SentIn(p, s)
  {
    if s[0] != q {
      SentInWithout(p, s[1..], q);
    }
  }

  lemma {:induction false} SentInBounds(p: Pool, s: seq<int>)
    ensures SentIn(p, s) <= |s|
    ensures (forall q :: q in s ==> IsSent(p, q)) ==> SentIn(p, s) == |s|
  {
    if s != [] {
      SentInBounds(p, s[1..]);
      assert forall q :: q in s[1..] ==> q in s;
    }
  }

  lemma {:induction false} LastWithout(s: seq<int>, q: int)
    requires s != [] && s[|s| - 1] != q
    ensures Without(s, q) != [] && Without(s, q)[|Without(s, q)| - 1] == s[|s| - 1]
  {
    if s[0] != q && |s| > 1 {
      LastWithout(s[1..], q);
    }
  }

  /** Giving back an id that is not the tail leaves the tail. */
  lemma TailKept(p: Pool, q: int)
    requires p.outstanding != [] && q != Tail(p)
    ensures QueryMove(p, q, PrependUnused).outstanding != [] && Tail(QueryMove(p, q, PrependUnused)) == Tail(p)
  {
    LastWithout(p.outstanding, q);
  }

  lemma {:induction false} SentInFrame(p: Pool, p': Pool, s: seq<int>)
    requires forall q :: q in s ==> IsSent(p, q) == IsSent(p', q)
    ensures SentIn(p, s) == SentIn(p', s)
  {
    if s != [] {
      SentInFrame(p, p', s[1..]);
    }
  }

  /** b has been sent, and a is not older: it was sent no earlier, or not at all yet. */
  predicate Newer(p: Pool, a: int, b: int) {
    IsSent(p, b) && (IsSent(p, a) ==> p.stamp[a].when >= p.stamp[b].when)
  }

  /** Newest first: only the head can be unsent, and send times do not grow towards the tail. */
  ghost predicate NewestFirst(p: Pool, s: seq<int>) {
    forall i, j :: 0 <= i < j < |s| ==> Newer(p, s[i], s[j])
  }

  ghost predicate Sound(p: Pool, clock: nat) {
    && Partition(p) && NewestFirst(p, p.outstanding)
    && (forall q :: q in p.outstanding && IsSent(p, q) ==> p.stamp[q].when <= clock)
  }

  /** A list around one of its members. */
  lemma Around(s: seq<int>, q: int) returns (a: seq<int>, b: seq<int>)
    requires Distinct(s) && q in s
    ensures s == a + [q] + b && Without(s, q) == a + b
  {
    var at :| 0 <= at < |s| && s[at] == q;
    WithoutAt(s, at);
    a, b := s[..at], s[at + 1..];
  }

  lemma NewestFirstAround(p: Pool, a: seq<int>, q: int, b: seq<int>)
    requires NewestFirst(p, a + [q] + b)
    ensures NewestFirst(p, a + b)
  {
    var s, t := a + [q] + b, a + b;
    forall i, j | 0 <= i < j < |t| ensures Newer(p, t[i], t[j]) {
      var i', j' := if i < |a| then i else i + 1, if j < |a| then j else j + 1;
      assert t[i] == s[i'] && t[j] == s[j'] && Newer(p, s[i'], s[j']);
    }
  }

  lemma NewestFirstWithout(p: Pool, s: seq<int>, q: int)
    requires Distinct(s) && NewestFirst(p, s)
    ensures NewestFirst(p, Without(s, q))
  {
    if q in s {
      var a, b := Around(s, q);
      NewestFirstAround(p, a, q, b);
    } else {
      WithoutOther(s, q);
    }
  }

  lemma SentInRemoved(p: Pool, s: seq<int>, q: int)
    ensures SentIn(p, Without(s, q)) == SentIn(p, s) - if q in s && IsSent(p, q) then 1 else 0
  {
    if q in s {
      SentInWithout(p, s, q);
    } else {
      WithoutOther(s, q);
    }
  }

  /** Taking an id off the outstanding list, or moving one within the unused list. */
  lemma RemoveSound(p: Pool, clock: nat, q: int, op: MoveOp)
    requires Sound(p, clock) && 0 <= q < |p.stamp| && !op.PrependOutstanding?
    ensures Sound(QueryMove(p, q, op), clock)
    ensures forall x :: x in QueryMove(p, q, op).outstanding <==> x in p.outstanding && x != q
    ensures |QueryMove(p, q, op).outstanding| == |p.outstanding| - if q in p.outstanding then 1 else 0
    ensures SentIn(QueryMove(p, q, op), QueryMove(p, q, op).outstanding)
      == SentIn(p, p.outstanding) - if q in p.outstanding && IsSent(p, q) then 1 else 0
  {
    var p' := QueryMove(p, q, op);
    QueryMovePartition(p, q, op);
    WithoutMembers(p.outstanding, q);
    NewestFirstWithout(p, p.outstanding, q);
    SentInRemoved(p, p.outstanding, q);
    SentInFrame(p, p', p'.outstanding);
    assert forall x, y :: Newer(p, x, y) ==> Newer(p', x, y);
  }

  /** The pool after the sender has reserved the first unused id. */
  function ReserveHead(p: Pool): Pool
    requires p.unused != []
  {
    Stamped(QueryMove(p, p.unused[0], PrependOutstanding), p.unused[0], Never)
  }

  lemma ReserveHeadShape(p: Pool)
    requires Partition(p) && p.unused != []
    ensures var q := p.unused[0];
      && 0 <= q < |p.stamp| && q !in p.outstanding
      && Partition(ReserveHead(p))
      && ReserveHead(p) == Pool(p.unused[1..], [q] + p.outstanding, p.stamp[q := Never])
  {
    var q := p.unused[0];
    assert q in p.unused;
    QueryMovePartition(p, q, PrependOutstanding);
    WithoutOther(p.outstanding, q);
  }

  /** An unsent id in front of a list of sent ones, all of whose times are kept. */
  lemma HeadedNewestFirst(p: Pool, p': Pool, q: int, s: seq<int>)
    requires NewestFirst(p, s) && !IsSent(p', q)
    requires forall x :: x in s ==> IsSent(p, x) && IsSent(p', x) && p'.stamp[x] == p.stamp[x]
    ensures NewestFirst(p', [q] + s)
  {
    var t := [q] + s;
    forall i, j | 0 <= i < j < |t| ensures Newer(p', t[i], t[j]) {
      assert t[j] == s[j - 1] && s[j - 1] in s;
      if i > 0 {
        assert t[i] == s[i - 1] && s[i - 1] in s && Newer(p, s[i - 1], s[j - 1]);
      }
    }
  }

  /** A reservation goes to the head, so the order is kept as long as everything else has been sent. */
  lemma ReserveSound(p: Pool, clock: nat)
    requires Sound(p, clock) && p.unused != [] && (forall q :: q in p.outstanding ==> IsSent(p, q))
    ensures Sound(ReserveHead(p), clock)
    ensures SentIn(ReserveHead(p), ReserveHead(p).outstanding) == SentIn(p, p.outstanding)
  {
    ReserveHeadShape(p);
    var p', q, s := ReserveHead(p), p.unused[0], p.outstanding;
    assert forall x :: x in s ==> x != q && IsSent(p', x) && p'.stamp[x] == p.stamp[x];
    SentInFrame(p, p', s);
    HeadedNewestFirst(p, p', q, s);
    assert ([q] + s)[1..] == s;
  }

  /** An unsent id on the outstanding list is its head. */
  lemma UnsentIsHead(p: Pool, q: int)
    requires NewestFirst(p, p.outstanding) && q in p.outstanding && !IsSent(p, q)
    ensures p.outstanding[0] == q
  {
    var i :| 0 <= i < |p.outstanding| && p.outstanding[i] == q;
    assert i == 0 || Newer(p, p.outstanding[0], p.outstanding[i]);
  }

  /** Stamping the reservation with the current time keeps the order; stamping an unused id does not touch it. */
  lemma StampSound(p: Pool, clock: nat, q: int)
    requires Sound(p, clock) && 0 <= q < |p.stamp| && (q in p.outstanding ==> !IsSent(p, q))
    ensures Sound(Stamped(p, q, At(clock)), clock)
    ensures SentIn(Stamped(p, q, At(clock)), p.outstanding)
      == SentIn(p, p.outstanding) + if q in p.outstanding then 1 else 0
  {
    var p', s := Stamped(p, q, At(clock)), p.outstanding;
    if q in s {
      UnsentIsHead(p, q);
      SentInFrame(p, p', s[1..]);
    } else {
      SentInFrame(p, p', s);
    }
    forall i, j | 0 <= i < j < |s| ensures Newer(p', s[i], s[j]) {
      assert Newer(p, s[i], s[j]) && s[i] in s && s[j] in s;
    }
  }

  /** A full scan, oldest first: what stays and what goes. */
  function Keep(p: Pool, s: seq<int>, cutoff: int): seq<int> {
    if s == [] then []
    else Keep(p, s[..|s| - 1], cutoff) + if Old(p, s[|s| - 1], cutoff) then [] else [s[|s| - 1]]
  }

  function Expire(p: Pool, s: seq<int>, cutoff: int): seq<int> {
    if s == [] then []
    else (if Old(p, s[|s| - 1], cutoff) then [s[|s| - 1]] else []) + Expire(p, s[..|s| - 1], cutoff)
  }

  lemma {:induction false} FullScanMembers(p: Pool, s: seq<int>, cutoff: int)
    ensures forall q :: q in Keep(p, s, cutoff) <==> q in s && !Old(p, q, cutoff)
    ensures forall q :: q in Expire(p, s, cutoff) <==> q in s && Old(p, q, cutoff)
  {
    if s != [] {
      FullScanMembers(p, s[..|s| - 1], cutoff);
      assert s == s[..|s| - 1] + [s[|s| - 1]];
    }
  }

  lemma {:induction false} NothingOld(p: Pool, s: seq<int>, cutoff: int)
    requires forall i :: 0 <= i < |s| ==> !Old(p, s[i], cutoff)
    ensures Keep(p, s, cutoff) == s && Expire(p, s, cutoff) == []
  {
    if s != [] {
      var init, last := s[..|s| - 1], s[|s| - 1];
      NothingOld(p, init, cutoff);
      assert s == init + [last];
    }
  }

  lemma {:induction false} ScanFrame(p: Pool, p': Pool, s: seq<int>, cutoff: int)
    requires p.stamp == p'.stamp
    ensures Keep(p, s, cutoff) == Keep(p', s, cutoff) && Expire(p, s, cutoff) == Expire(p', s, cutoff)
  {
    if s != [] {
      ScanFrame(p, p', s[..|s| - 1], cutoff);
    }
  }

  lemma {:induction false} ScanAround(p: Pool, a: seq<int>, q: int, b: seq<int>, cutoff: int)
    requires Old(p, q, cutoff)
    ensures Keep(p, a + b, cutoff) == Keep(p, a + [q] + b, cutoff)
    ensures |Expire(p, a + b, cutoff)| + 1 == |Expire(p, a + [q] + b, cutoff)|
    decreases |b|
  {
    if b == [] {
      assert a + b == a && a + [q] + b == a + [q] && (a + [q])[..|a|] == a;
    } else {
      var n := |b| - 1;
      assert (a + b)[..|a| + n] == a + b[..n] && (a + [q] + b)[..|a| + 1 + n] == a + [q] + b[..n];
      ScanAround(p, a, q, b[..n], cutoff);
    }
  }

  /** Taking an entry off first changes neither what a scan keeps nor the number that go, if the entry is old. */
  lemma ScanWithout(p: Pool, s: seq<int>, q: int, cutoff: int)
    requires Distinct(s) && q in s && Old(p, q, cutoff)
    ensures Keep(p, Without(s, q), cutoff) == Keep(p, s, cutoff)
    ensures |Expire(p, Without(s, q), cutoff)| + 1 == |Expire(p, s, cutoff)|
  {
    var a, b := Around(s, q);
    ScanAround(p, a, q, b, cutoff);
  }

  /** Moving the tail with query_move leaves the rest of the list as it is. */
  lemma MoveTail(p: Pool)
    requires Partition(p) && p.outstanding != []
    ensures QueryMove(p, Tail(p), AppendUnused) == DropTail(p) && 0 <= Tail(p) < |p.stamp|
  {
    assert Tail(p) in p.outstanding;
    WithoutAt(p.outstanding, |p.outstanding| - 1);
    WithoutOther(p.unused, Tail(p));
  }

  lemma DropTailSound(p: Pool, clock: nat)
    requires Sound(p, clock) && p.outstanding != []
    ensures Sound(DropTail(p), clock)
    ensures forall x :: x in DropTail(p).outstanding <==> x in p.outstanding && x != Tail(p)
    ensures SentIn(DropTail(p), DropTail(p).outstanding) == SentIn(p, p.outstanding) - if IsSent(p, Tail(p)) then 1 else 0
  {
    MoveTail(p);
    assert Tail(p) in p.outstanding;
    RemoveSound(p, clock, Tail(p), AppendUnused);
  }

  /** The pool after every old entry, wherever it is on the list, has gone to the unused list. */
  function FullScan(p: Pool, cutoff: int): (Pool, nat) {
    (p.(outstanding := Keep(p, p.outstanding, cutoff), unused := p.unused + Expire(p, p.outstanding, cutoff)),
     |Expire(p, p.outstanding, cutoff)|)
  }

  lemma YoungTail(p: Pool, cutoff: int)
    requires NewestFirst(p, p.outstanding)
    requires p.outstanding != [] ==> !Old(p, Tail(p), cutoff)
    ensures FullScan(p, cutoff) == (p, 0)
  {
    var s, n := p.outstanding, |p.outstanding| - 1;
    forall i | 0 <= i < |s| ensures !Old(p, s[i], cutoff) {
      assert i < n ==> Newer(p, s[i], s[n]);
    }
    NothingOld(p, p.outstanding, cutoff);
    assert p.unused + [] == p.unused;
  }

  /** An old tail: the full scan takes it too, before whatever else it takes. */
  lemma OldTail(p: Pool, cutoff: int)
    requires p.outstanding != [] && Old(p, Tail(p), cutoff)
    ensures FullScan(p, cutoff) == (FullScan(DropTail(p), cutoff).0, FullScan(DropTail(p), cutoff).1 + 1)
  {
    var p' := DropTail(p);
    ScanFrame(p, p', p'.outstanding, cutoff);
    var rest := Expire(p', p'.outstanding, cutoff);
    assert p.unused + [Tail(p)] + rest == p.unused + ([Tail(p)] + rest);
    assert Keep(p, p.outstanding, cutoff) == Keep(p', p'.outstanding, cutoff);
    assert Expire(p, p.outstanding, cutoff) == [Tail(p)] + rest;
  }

  /** Because the list is newest first, the tail-only scan retires exactly what a full scan would. */
  lemma {:induction false} RetireTailIsFullScan(p: Pool, clock: nat, cutoff: int)
    requires Sound(p, clock)
    ensures RetireTail(p, cutoff) == FullScan(p, cutoff)
    decreases |p.outstanding|
  {
    if p.outstanding != [] && Old(p, Tail(p), cutoff) {
      OldTail(p, cutoff);
      DropTailSound(p, clock);
      RetireTailIsFullScan(DropTail(p), clock, cutoff);
    } else {
      YoungTail(p, cutoff);
    }
  }

  /** No sent query at or before the cutoff is left, and nothing newer is touched. */
  lemma RetireTailLeavesNoneOld(p: Pool, clock: nat, cutoff: int)
    requires Sound(p, clock)
    ensures forall q :: q in RetireTail(p, cutoff).0.outstanding <==> q in p.outstanding && !Old(p, q, cutoff)
  {
    RetireTailIsFullScan(p, clock, cutoff);
    FullScanMembers(p, p.outstanding, cutoff);
  }

  /** A pass only takes sent ids off the outstanding list, and says how many. */
  ghost predicate TookSent(p: Pool, p': Pool, n: nat) {
    && p'.stamp == p.stamp
    && (forall q :: q in p'.outstanding ==> q in p.outstanding)
    && (forall q :: q in p.outstanding && !IsSent(p, q) ==> q in p'.outstanding)
    && SentIn(p', p'.outstanding) + n == SentIn(p, p.outstanding)
  }

  lemma {:induction false} RetireTailSound(p: Pool, clock: nat, cutoff: int)
    requires Sound(p, clock)
    ensures Sound(RetireTail(p, cutoff).0, clock)
    ensures TookSent(p, RetireTail(p, cutoff).0, RetireTail(p, cutoff).1)
    ensures |RetireTail(p, cutoff).0.outstanding| <= |p.outstanding|
    decreases |p.outstanding|
  {
    if p.outstanding != [] && Old(p, Tail(p), cutoff) {
      DropTailSound(p, clock);
      RetireTailSound(DropTail(p), clock, cutoff);
    }
  }

  lemma {:induction false} ClaimAllSound(p: Pool, clock: nat, batch: seq<Response>)
    requires Sound(p, clock)
    ensures Sound(ClaimAll(p, batch).0, clock)
    ensures TookSent(p, ClaimAll(p, batch).0, ClaimAll(p, batch).1)
    ensures ClaimAll(p, batch).1 <= |batch| && |ClaimAll(p, batch).0.outstanding| <= |p.outstanding|
    decreases |batch|
  {
    if batch != [] {
      if Expected(p, batch[0]) {
        RemoveSound(p, clock, batch[0].qid, AppendUnused);
        ClaimAllSound(QueryMove(p, batch[0].qid, AppendUnused), clock, batch[1..]);
      } else {
        ClaimAllSound(p, clock, batch[1..]);
      }
    }
  }

  /** Some full-length response of the batch carries the id. */
  predicate Named(batch: seq<Response>, q: int) {
    exists i :: 0 <= i < |batch| && !batch[i].short && batch[i].qid == q
  }

  /** A batch takes exactly the sent ids it names, once each, whatever else it contains. */
  lemma {:induction false} ClaimAllExact(p: Pool, batch: seq<Response>)
    requires Partition(p)
    ensures forall q :: q in ClaimAll(p, batch).0.outstanding <==> q in p.outstanding && !(IsSent(p, q) && Named(batch, q))
    decreases |batch|
  {
    if batch != [] {
      var r, rest := batch[0], batch[1..];
      assert forall q :: Named(batch, q) <==> (!r.short && r.qid == q) || Named(rest, q) by {
        forall q | Named(batch, q) && !(!r.short && r.qid == q) ensures Named(rest, q) {
          var i :| 0 <= i < |batch| && !batch[i].short && batch[i].qid == q;
          assert rest[i - 1] == batch[i];
        }
        forall q | Named(rest, q) ensures Named(batch, q) {
          var i :| 0 <= i < |rest| && !rest[i].short && rest[i].qid == q;
          assert batch[i + 1] == rest[i];
        }
      }
      if Expected(p, r) {
        QueryMovePartition(p, r.qid, AppendUnused);
        ClaimAllExact(QueryMove(p, r.qid, AppendUnused), rest);
      } else {
        ClaimAllExact(p, rest);
      }
    }
  }

  lemma {:induction false} CancelAllSound(p: Pool, clock: nat)
    requires Sound(p, clock)
    ensures Sound(CancelAll(p).0, clock) && CancelAll(p).0.outstanding == [] && CancelAll(p).0.stamp == p.stamp
    ensures CancelAll(p).1 == SentIn(p, p.outstanding)
    decreases |p.outstanding|
  {
    if p.outstanding != [] {
      DropTailSound(p, clock);
      CancelAllSound(DropTail(p), clock);
    }
  }
}
