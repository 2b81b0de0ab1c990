/**
 host's chase_cnamechain: follow the CNAME records of an answer from a query name, for at most as many hops as the
 answer section has records.  An answer is taken as the map from owner names to their first CNAME target.
 */
module CnameChase {

  /** The name after k hops; a name without a CNAME record stays. */
  function Hop<N>(cname: map<N, N>, q: N, k: nat): N
    decreases k
  {
    if k > 0 && q in cname then Hop(cname, cname[q], k - 1) else q
  }

  lemma {:induction false} HopAdds<N>(cname: map<N, N>, q: N, i: nat, j: nat)
    ensures Hop(cname, q, i + j) == Hop(cname, Hop(cname, q, i), j)
    decreases i
  {
    if i > 0 && q in cname {
      HopAdds(cname, cname[q], i - 1, j);
    }
  }

  /** Once the end of a chain is reached, more hops change nothing. */
  lemma EndStays<N>(cname: map<N, N>, q: N, i: nat, j: nat)
    requires Hop(cname, q, i) !in cname && i <= j
    ensures Hop(cname, q, j) == Hop(cname, q, i)
  {
    HopAdds(cname, q, i, j - i);
  }

  /** The first k names of the chain. */
  function Names<N>(cname: map<N, N>, q: N, k: nat): (s: seq<N>)
    ensures |s| == k && forall i :: 0 <= i < k ==> s[i] == Hop(cname, q, i)
  {
    seq(k, i requires i >= 0 => Hop(cname, q, i))
  }

  ghost predicate Repeats<N>(s: seq<N>) {
    exists i, j :: 0 <= i < j < |s| && s[i] == s[j]
  }

  lemma {:induction false} Pigeonhole<N>(s: seq<N>, owners: set<N>)
    requires forall i :: 0 <= i < |s| ==> s[i] in owners
    requires |s| > |owners|
    ensures Repeats(s)
    decreases |s|
  {
    var last, init := s[|s| - 1], s[..|s| - 1];
    if last in init {
      var i :| 0 <= i < |init| && init[i] == last;
      assert s[i] == s[|s| - 1];
    } else if owners != {} {
      Pigeonhole(init, owners - {last});
      var i, j :| 0 <= i < j < |init| && init[i] == init[j];
      assert s[i] == s[j];
    }
  }

  /** No name is reached from itself. */
  ghost predicate Acyclic<N(!new)>(cname: map<N, N>) {
    forall x, k: nat :: x in cname && k > 0 ==> Hop(cname, x, k) != x
  }

  /** A chain that still has a record after as many hops as there are owners meets some owner twice. */
  lemma MeetsTwice<N>(cname: map<N, N>, q: N) returns (i: nat, j: nat)
    requires Hop(cname, q, |cname|) in cname
    ensures i < j <= |cname| && Hop(cname, q, i) == Hop(cname, q, j) && Hop(cname, q, i) in cname
  {
    var s := Names(cname, q, |cname| + 1);
    forall k | 0 <= k < |s| ensures s[k] in cname.Keys {
      if s[k] !in cname {
        EndStays(cname, q, k, |cname|);
      }
    }
    assert |cname.Keys| == |cname|;
    Pigeonhole(s, cname.Keys);
    i, j :| 0 <= i < j < |s| && s[i] == s[j];
  }

  lemma {:induction false} NeverEnds<N>(cname: map<N, N>, x: N, p: nat, k: nat)
    requires x in cname && p > 0 && Hop(cname, x, p) == x
    ensures Hop(cname, x, k) in cname
    decreases k
  {
    if k < p {
      if Hop(cname, x, k) !in cname {
        EndStays(cname, x, k, p);
      }
    } else {
      HopAdds(cname, x, p, k - p);
      NeverEnds(cname, x, p, k - p);
    }
  }

  ghost predicate Ends<N>(cname: map<N, N>, q: N) {
    exists k: nat :: Hop(cname, q, k) !in cname
  }

  /** A chain that ends at all ends within as many hops as there are owners. */
  lemma EndsInTime<N>(cname: map<N, N>, q: N)
    ensures Ends(cname, q) <==> Hop(cname, q, |cname|) !in cname
  {
    if Hop(cname, q, |cname|) in cname {
      var i, j := MeetsTwice(cname, q);
      var x := Hop(cname, q, i);
      HopAdds(cname, q, i, j - i);
      forall k: nat ensures Hop(cname, q, k) in cname {
        if k >= i {
          HopAdds(cname, q, i, k - i);
          NeverEnds(cname, x, j - i, k - i);
        } else if Hop(cname, q, k) !in cname {
          EndStays(cname, q, k, i);
        }
      }
    }
  }

  lemma AcyclicEnds<N(!new)>(cname: map<N, N>, q: N)
    requires Acyclic(cname)
    ensures Hop(cname, q, |cname|) !in cname
  {
    if Hop(cname, q, |cname|) in cname {
      var i, j := MeetsTwice(cname, q);
      HopAdds(cname, q, i, j - i);
    }
  }

  /** chase_cnamechain; `count` is the number of records in the answer section. */
  method Chase<N(==)>(cname: map<N, N>, count: nat, qname: N) returns (name: N, ghost hops: nat)
    ensures name == Hop(cname, qname, hops) && hops <= count
    ensures name in cname ==> hops == count
    ensures |cname| <= count && Ends(cname, qname) ==> name !in cname
  {
    name, hops := qname, 0;
    var i := count;
    while i > 0
      invariant name == Hop(cname, qname, hops) && hops + i == count
    {
      i := i - 1;
      if name !in cname {
        break;
      }
      HopAdds(cname, qname, hops, 1);
      name := cname[name];
      hops := hops + 1;
    }
    EndsInTime(cname, qname);
    if name in cname && |cname| <= count && Ends(cname, qname) {
      EndStays(cname, qname, |cname|, count);
    }
  }

  /** What Chase finds is the end of the chain exactly when the chain ends within `count` hops. */
  lemma ChaseIff<N>(cname: map<N, N>, q: N, count: nat, name: N, hops: nat)
    requires name == Hop(cname, q, hops) && hops <= count && (name in cname ==> hops == count)
    ensures name !in cname <==> exists k: nat :: k <= count && Hop(cname, q, k) !in cname
    ensures forall k: nat :: Hop(cname, q, k) !in cname && k <= count ==> name == Hop(cname, q, k)
  {
    forall k: nat | Hop(cname, q, k) !in cname && k <= count ensures name == Hop(cname, q, k) {
      if k <= hops {
        EndStays(cname, q, k, hops);
      } else {
        EndStays(cname, q, hops, k);
      }
    }
  }
}
