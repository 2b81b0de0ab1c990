/**
 The pool of query ids that dnsperf keeps per client and resperf keeps once: every id is
 either unused or outstanding, and carries the time at which it was last sent.

 `Pool` is the pool as a value, with the two lists as sequences.
 */
module QueryPool {
  import opened IscList

  /** The number of query ids. */
  const NQIDS: nat := 65536

  /** A send time; `Never` is the ISC_UINT64_MAX of an id that is reserved but not yet sent. */
  datatype Stamp = Never | At(when: nat)

  datatype Pool = Pool(unused: seq<int>, outstanding: seq<int>, stamp: seq<Stamp>)

  datatype MoveOp = PrependUnused | AppendUnused | PrependOutstanding

  /** The two lists hold every id exactly once between them. */
  ghost predicate Partition(p: Pool) {
    && Distinct(p.unused) && Distinct(p.outstanding)
    && |p.unused| + |p.outstanding| == |p.stamp|
    && (forall q :: q in p.unused ==> 0 <= q < |p.stamp|)
    && (forall q :: q in p.outstanding ==> 0 <= q < |p.stamp|)
    && (forall q :: 0 <= q < |p.stamp| ==> (q in p.unused <==> q !in p.outstanding))
  }

  /** query_move on values. */
  function QueryMove(p: Pool, q: int, op: MoveOp): Pool {
    var unused := Without(p.unused, q);
    var outstanding := Without(p.outstanding, q);
    match op
    case PrependUnused => p.(unused := [q] + unused, outstanding := outstanding)
    case AppendUnused => p.(unused := unused + [q], outstanding := outstanding)
    case PrependOutstanding => p.(unused := unused, outstanding := [q] + outstanding)
  }

  /** Moving any id, from whichever list it is on, keeps the two lists a partition of all ids. */
  lemma QueryMovePartition(p: Pool, q: int, op: MoveOp)
    requires Partition(p) && 0 <= q < |p.stamp|
    ensures Partition(QueryMove(p, q, op))
    ensures q in QueryMove(p, q, op).outstanding <==> op.PrependOutstanding?
    ensures forall x :: x != q ==> (x in QueryMove(p, q, op).outstanding <==> x in p.outstanding)
    ensures Disjoint(Without(p.unused, q), Without(p.outstanding, q))
    ensures Disjoint(Without(p.outstanding, q), Without(p.unused, q))
  {
    WithoutMembers(p.unused, q);
    WithoutMembers(p.outstanding, q);
  }

  function Initial(n: nat): Pool {
    Pool(seq(n, i => i), [], seq(n, _ => At(0)))
  }

  lemma InitialPartition(n: nat)
    ensures Partition(Initial(n))
    ensures forall q :: 0 <= q < n ==> q in Initial(n).unused
  {
    forall q | 0 <= q < n ensures q in Initial(n).unused { assert Initial(n).unused[q] == q; }
  }
}
