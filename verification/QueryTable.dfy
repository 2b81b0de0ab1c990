/**
 The query pool as the C code holds it: one array of entries threaded onto two intrusive lists, each
 entry also naming the list it is on.  Each method does what the C code does between taking and
 releasing the client's lock, and is proved to be the corresponding operation or pass on the pool as
 a value, which is what the protocol in `Dnsperf` takes as one step.
 */
module QueryTables {
  import opened IscList
  import opened QueryPool
  import opened PoolPasses
  import Dnsperf

  class QueryTable {
    const links: Links
    const unused: List
    const outstanding: List
    var list: seq<List>
    var stamp: seq<Stamp>

    ghost predicate Valid()
      reads this, links, unused, outstanding
    {
      && unused != outstanding && |links.prev| == |list| == |stamp|
      && links.Holds(unused) && links.Holds(outstanding)
      && Partition(View())
      && (forall q :: 0 <= q < |list| ==> list[q] == if q in unused.elems then unused else outstanding)
    }

    ghost function View(): Pool
      reads this, unused, outstanding
    {
      Pool(unused.elems, outstanding.elems, stamp)
    }

    /** The list setup of threadinfo_init and of resperf's setup. */
    constructor (n: nat)
      ensures Valid() && View() == Initial(n)
      ensures fresh(links) && fresh(unused) && fresh(outstanding)
    {
      var ls := new Links(n);
      var u := new List();
      var o := new List();
      links, unused, outstanding := ls, u, o;
      list, stamp := [], seq(n, _ => At(0));
      new;
      while |list| < n
        invariant |list| <= n == |links.prev| == |links.next| == |stamp| && stamp == seq(n, _ => At(0))
        invariant links.Holds(unused) && unused.elems == seq(|list|, k => k)
        invariant forall k :: |list| <= k < n ==> !links.Linked(k)
        invariant forall k :: 0 <= k < |list| ==> list[k] == unused
        modifies this, links, unused
      {
        AppendNext();
      }
      InitialPartition(n);
    }

    /** One round of the setup loop: the next entry goes to the end of the unused list. */
    method AppendNext()
      requires |list| < |links.prev| == |links.next| && links.Holds(unused) && unused.elems == seq(|list|, k => k)
      requires forall k :: |list| <= k < |links.prev| ==> !links.Linked(k)
      modifies this, links, unused
      ensures stamp == old(stamp) && |links.prev| == |links.next| == old(|links.prev|)
      ensures list == old(list) + [unused] && links.Holds(unused) && unused.elems == seq(|list|, k => k)
      ensures forall k :: |list| <= k < |links.prev| ==> !links.Linked(k)
    {
      links.Append(unused, |list|);
      list := list + [unused];
      forall k | |list| <= k < |links.prev| ensures !links.Linked(k) {
        assert !old(links.Linked(k)) && links.ChainOf(unused).prev[k] == old(links.prev[k]);
      }
    }

    /** The unlinking half of query_move: afterwards the id is on neither list. */
    method Detach(q: int)
      requires Valid() && 0 <= q < |stamp|
      modifies links, unused, outstanding
      ensures links.Holds(unused) && unused.elems == Without(old(unused.elems), q)
      ensures links.Holds(outstanding) && outstanding.elems == Without(old(outstanding.elems), q)
      ensures |links.prev| == |stamp| && !links.Linked(q)
    {
      if list[q] == unused {
        links.UnlinkBeside(unused, outstanding, q);
      } else {
        links.UnlinkBeside(outstanding, unused, q);
      }
    }

    /** query_move */
    method Move(q: int, op: MoveOp)
      requires Valid() && 0 <= q < |stamp|
      modifies this, links, unused, outstanding
      ensures Valid() && View() == QueryMove(old(View()), q, op)
    {
      QueryMovePartition(View(), q, op);
      Detach(q);
      match op {
        case PrependUnused =>
          list := list[q := unused];
          links.PrependBeside(unused, outstanding, q);
        case AppendUnused =>
          list := list[q := unused];
          links.AppendBeside(unused, outstanding, q);
        case PrependOutstanding =>
          list := list[q := outstanding];
          links.PrependBeside(outstanding, unused, q);
      }
      assert View() == QueryMove(old(View()), q, op);
    }

    method SetStamp(q: int, x: Stamp)
      requires Valid() && 0 <= q < |stamp|
      modifies this`stamp
      ensures Valid() && View() == Stamped(old(View()), q, x)
    {
      stamp := stamp[q := x];
    }

    /** ISC_LIST_HEAD(unused_queries) */
    method Head() returns (q: int)
      requires Valid()
      ensures if View().unused == [] then q == NULL else q == View().unused[0] && 0 <= q < |stamp|
    {
      q := unused.head;
      assert unused.elems != [] ==> unused.elems[0] in unused.elems;
    }

    /** q is the tail pointer: the last outstanding id, or null. */
    ghost predicate IsTail(q: int)
      reads this, unused, outstanding
    {
      if View().outstanding == [] then q == NULL else q == PoolPasses.Tail(View()) && 0 <= q < |stamp|
    }

    /** ISC_LIST_TAIL(outstanding_queries) */
    method Tail() returns (q: int)
      requires Valid()
      ensures IsTail(q)
    {
      q := outstanding.tail;
      ghost var s := outstanding.elems;
      assert s != [] ==> s[|s| - 1] in s;
    }

    /** Puts an entry at the end of the unused list, and looks at the tail again. */
    method Drop(q: int) returns (next: int)
      requires Valid() && 0 <= q < |stamp|
      modifies this, links, unused, outstanding
      ensures Valid() && View() == QueryMove(old(View()), q, AppendUnused) && IsTail(next)
    {
      Move(q, AppendUnused);
      next := Tail();
    }

    method DropLast(q: int) returns (next: int)
      requires Valid() && IsTail(q) && q != NULL
      modifies this, links, unused, outstanding
      ensures Valid() && View() == DropTail(old(View())) && IsTail(next)
    {
      MoveTail(View());
      next := Drop(q);
    }

    /** do_send, lines 608-610 */
    method Reserve() returns (q: int)
      requires Valid() && View().unused != []
      modifies this, links, unused, outstanding
      ensures Valid() && View() == ReserveHead(old(View())) && q == old(View()).unused[0]
    {
      q := Head();
      Move(q, PrependOutstanding);
      SetStamp(q, Never);
    }

    /** process_timeouts, lines 700-702: whether the loop goes on with the tail it has just read. */
    method TailTimedOut(q: int, now: nat, timeout: nat) returns (r: bool)
      requires Valid() && IsTail(q)
      ensures r <==> View().outstanding != [] && Old(View(), PoolPasses.Tail(View()), Dnsperf.Cutoff(now, timeout))
    {
      r := q != NULL && stamp[q].At? && stamp[q].when < now && now - stamp[q].when >= timeout;
    }

    /** The rounds of the loop of process_timeouts after the first. */
    method RetireRest(tail: int, now: nat, timeout: nat) returns (n: nat)
      requires Valid() && IsTail(tail)
      modifies this, links, unused, outstanding
      ensures Valid() && View() == RetireTail(old(View()), Dnsperf.Cutoff(now, timeout)).0
      ensures n == RetireTail(old(View()), Dnsperf.Cutoff(now, timeout)).1
    {
      ghost var cutoff, p := Dnsperf.Cutoff(now, timeout), View();
      ghost var goal := RetireTail(p, cutoff);
      var q := tail;
      n := 0;
      while true
        invariant Valid() && IsTail(q) && View() == p
        invariant RetireTail(p, cutoff).0 == goal.0 && RetireTail(p, cutoff).1 + n == goal.1
        decreases |p.outstanding|
      {
        var more := TailTimedOut(q, now, timeout);
        if !more {
          break;
        }
        q := DropLast(q);
        n := n + 1;
        p := DropTail(p);
      }
    }

    /** The locked part of process_timeouts, starting from the entry seen before locking; n is added to num_timedout. */
    method RetireFrom(seen: int, now: nat, timeout: nat) returns (n: nat)
      requires Valid() && 0 <= seen < |stamp|
      modifies this, links, unused, outstanding
      ensures Valid() && View() == Dnsperf.RetireFrom(old(View()), seen, Dnsperf.Cutoff(now, timeout)).0
      ensures n == Dnsperf.RetireFrom(old(View()), seen, Dnsperf.Cutoff(now, timeout)).1
    {
      var q := Drop(seen);
      n := RetireRest(q, now, timeout);
      n := n + 1;
    }

    /** do_recv, lines 780-793: the first of the responses still to be claimed */
    method ClaimOne(r: Response, ghost batch: seq<Response>) returns (hit: bool)
      requires Valid() && batch != [] && batch[0] == r && r.qid < |stamp|
      modifies this, links, unused, outstanding
      ensures Valid() && |stamp| == old(|stamp|) && hit == Expected(old(View()), r)
      ensures ClaimAll(View(), batch[1..]).0 == ClaimAll(old(View()), batch).0
      ensures ClaimAll(View(), batch[1..]).1 + (if hit then 1 else 0) == ClaimAll(old(View()), batch).1
    {
      hit := !r.short && list[r.qid] == outstanding && stamp[r.qid].At?;
      if hit {
        Move(r.qid, AppendUnused);
      }
    }

    /** The locked loop of do_recv: which responses of the batch matched an outstanding query. */
    method ClaimBatch(batch: seq<Response>) returns (matched: seq<bool>)
      requires Valid() && forall r :: r in batch ==> r.qid < |stamp|
      modifies this, links, unused, outstanding
      ensures Valid() && |matched| == |batch|
      ensures View() == ClaimAll(old(View()), batch).0 && CountTrue(matched) == ClaimAll(old(View()), batch).1
    {
      ghost var goal := ClaimAll(View(), batch);
      matched := [];
      assert batch[0..] == batch;
      while |matched| < |batch|
        invariant Valid() && |matched| <= |batch| && |stamp| == old(|stamp|)
        invariant ClaimAll(View(), batch[|matched|..]).0 == goal.0
        invariant ClaimAll(View(), batch[|matched|..]).1 + CountTrue(matched) == goal.1
      {
        var r := batch[|matched|];
        ghost var rest := batch[|matched|..];
        assert r in batch && rest[1..] == batch[|matched| + 1..];
        var hit := ClaimOne(r, rest);
        CountTrueSnoc(matched, hit);
        matched := matched + [hit];
      }
    }

    /** cancel_queries; n is added to num_interrupted. */
    method CancelQueries() returns (n: nat)
      requires Valid()
      modifies this, links, unused, outstanding
      ensures Valid() && View() == CancelAll(old(View())).0 && n == CancelAll(old(View())).1
    {
      ghost var p := View();
      ghost var goal := CancelAll(p);
      n := 0;
      var q := Tail();
      while q != NULL
        invariant Valid() && IsTail(q) && View() == p
        invariant CancelAll(p).0 == goal.0 && CancelAll(p).1 + n == goal.1
        decreases |p.outstanding|
      {
        if stamp[q].At? {
          n := n + 1;
        }
        q := DropLast(q);
        p := DropTail(p);
      }
    }
  }

  function CountTrue(s: seq<bool>): nat {
    if s == [] then 0 else CountTrue(s[1..]) + if s[0] then 1 else 0
  }

  lemma {:induction false} CountTrueSnoc(s: seq<bool>, b: bool)
    ensures CountTrue(s + [b]) == CountTrue(s) + if b then 1 else 0
  {
    if s != [] {
      CountTrueSnoc(s[1..], b);
      assert (s + [b])[1..] == s[1..] + [b];
    }
  }
}
