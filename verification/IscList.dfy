/**
 The intrusive doubly linked lists of isc/list.h.

 The C macros thread a list through link fields embedded in the elements, so one
 array of elements can carry several lists at once.  Here an element is an index
 into the two link fields of a `Links` object, and a `List` is the head/tail pair
 that the macros take by reference.  Every operation is proved to be the sequence
 operation it stands for, and to leave any other list over the same elements alone.
 */
module IscList {

  /** The null pointer. */
  const NULL: int := -1

  /** The (void *)(-1) that marks an element that is on no list. */
  const UNLINKED: int := -2

  ghost predicate Distinct(s: seq<int>) {
    forall i, j :: 0 <= i < j < |s| ==> s[i] != s[j]
  }

  ghost predicate Disjoint(s: seq<int>, t: seq<int>) {
    forall k :: k in s ==> k !in t
  }

  /** The sequence without its first occurrence of q. */
  function Without(s: seq<int>, q: int): seq<int> {
    if s == [] then [] else if s[0] == q then s[1..] else [s[0]] + Without(s[1..], q)
  }

  lemma {:induction false} WithoutMembers(s: seq<int>, q: int)
    requires Distinct(s)
    ensures Distinct(Without(s, q))
    ensures forall x :: x in Without(s, q) <==> x in s && x != q
    ensures |Without(s, q)| == |s| - if q in s then 1 else 0
  {
    if s != [] && s[0] != q {
      WithoutMembers(s[1..], q);
      assert s == [s[0]] + s[1..];
      assert s[0] !in s[1..];
      assert s[0] !in Without(s[1..], q);
    } else if s != [] {
      assert s == [s[0]] + s[1..];
    }
  }

  lemma {:induction false} WithoutAt(s: seq<int>, at: nat)
    requires Distinct(s) && at < |s|
    ensures Without(s, s[at]) == s[..at] + s[at + 1..]
  {
    if at > 0 {
      assert s[0] != s[at];
      WithoutAt(s[1..], at - 1);
      assert s[1..][at - 1] == s[at];
      assert s[..at] + s[at + 1..] == [s[0]] + (s[1..][..at - 1] + s[1..][at..]);
    }
  }

  lemma {:induction false} WithoutOther(s: seq<int>, q: int)
    requires q !in s
    ensures Without(s, q) == s
  {
    if s != [] {
      WithoutOther(s[1..], q);
    }
  }

  /** The element at an index, or the null pointer past either end. */
  function Elem(s: seq<int>, i: int): int {
    if 0 <= i < |s| then s[i] else NULL
  }

  /** Following `next` from each element of `s` gives the one after it. */
  ghost predicate Forward(next: seq<int>, s: seq<int>) {
    && (forall i :: 0 <= i < |s| ==> 0 <= s[i] < |next|)
    && (forall i {:trigger next[s[i]]} :: 0 <= i < |s| ==> next[s[i]] == Elem(s, i + 1))
  }

  /** Following `prev` from each element of `s` gives the one before it. */
  ghost predicate Backward(prev: seq<int>, s: seq<int>) {
    && (forall i :: 0 <= i < |s| ==> 0 <= s[i] < |prev|)
    && (forall i {:trigger prev[s[i]]} :: 0 <= i < |s| ==> prev[s[i]] == Elem(s, i - 1))
  }

  /** The link fields of every element, and the ends of one list. */
  datatype Chain = Chain(prev: seq<int>, next: seq<int>, head: int, tail: int)

  /** The links spell out exactly the sequence `s` from head to tail. */
  ghost predicate Spells(c: Chain, s: seq<int>) {
    && |c.prev| == |c.next|
    && c.head == Elem(s, 0) && c.tail == Elem(s, |s| - 1)
    && Forward(c.next, s) && Backward(c.prev, s)
  }

  /** No element is on a well-linked list twice: going back from two places of one element would never part. */
  lemma {:induction false} SpellsApart(prev: seq<int>, s: seq<int>, i: nat, j: nat)
    requires Backward(prev, s) && i < j < |s|
    ensures s[i] != s[j]
  {
    assert prev[s[i]] == Elem(s, i - 1) && prev[s[j]] == Elem(s, j - 1);
    if i > 0 {
      SpellsApart(prev, s, i - 1, j - 1);
    }
  }

  lemma SpellsDistinct(c: Chain, s: seq<int>)
    requires Spells(c, s)
    ensures Distinct(s)
  {
    forall i, j | 0 <= i < j < |s| ensures s[i] != s[j] { SpellsApart(c.prev, s, i, j); }
  }

  /** An element on a list is never marked unlinked. */
  lemma UnlinkedIsElsewhere(c: Chain, s: seq<int>, elt: int)
    requires Spells(c, s) && 0 <= elt < |c.prev| && c.prev[elt] == UNLINKED
    ensures elt !in s
  {
  }

  /** Only the links of the `touched` elements differ between c and d. */
  ghost predicate SameBut(c: Chain, d: Chain, touched: seq<int>) {
    && |c.prev| == |d.prev| && |c.next| == |d.next|
    && (forall k {:trigger d.prev[k]} :: 0 <= k < |c.prev| && k !in touched ==> d.prev[k] == c.prev[k])
    && (forall k {:trigger d.next[k]} :: 0 <= k < |c.next| && k !in touched ==> d.next[k] == c.next[k])
  }

  /** A list is not disturbed by changes to the links of elements that are not on it. */
  lemma SpellsFrame(c: Chain, s: seq<int>, d: Chain, touched: seq<int>)
    requires Spells(c, s) && SameBut(c, d, touched) && c.head == d.head && c.tail == d.tail && Disjoint(s, touched)
    ensures Spells(d, s)
  {
    assert forall i :: 0 <= i < |s| ==> s[i] in s;
  }

  predicate InBounds(c: Chain, elt: int) {
    && |c.prev| == |c.next| && 0 <= elt < |c.prev|
    && NULL <= c.head < |c.prev| && NULL <= c.tail < |c.prev|
  }

  function Prepended(c: Chain, elt: int): Chain
    requires InBounds(c, elt)
  {
    if c.head != NULL then
      Chain(c.prev[c.head := elt][elt := NULL], c.next[elt := c.head], elt, c.tail)
    else
      Chain(c.prev[elt := NULL], c.next[elt := c.head], elt, elt)
  }

  lemma PrependedSpells(c: Chain, s: seq<int>, elt: int)
    requires Spells(c, s) && 0 <= elt < |c.prev| && elt !in s
    ensures Spells(Prepended(c, elt), [elt] + s) && SameBut(c, Prepended(c, elt), [elt] + s)
  {
    SpellsDistinct(c, s);
    var d, s' := Prepended(c, elt), [elt] + s;
    forall i | 0 <= i < |s'|
      ensures d.prev[s'[i]] == Elem(s', i - 1) && d.next[s'[i]] == Elem(s', i + 1)
    {
      assert i > 0 ==> c.prev[s[i - 1]] == Elem(s, i - 2) && c.next[s[i - 1]] == Elem(s, i);
    }
  }

  function Appended(c: Chain, elt: int): Chain
    requires InBounds(c, elt)
  {
    if c.tail != NULL then
      Chain(c.prev[elt := c.tail], c.next[c.tail := elt][elt := NULL], c.head, elt)
    else
      Chain(c.prev[elt := c.tail], c.next[elt := NULL], elt, elt)
  }

  lemma AppendedSpells(c: Chain, s: seq<int>, elt: int)
    requires Spells(c, s) && 0 <= elt < |c.prev| && elt !in s
    ensures Spells(Appended(c, elt), s + [elt]) && SameBut(c, Appended(c, elt), s + [elt])
  {
    SpellsDistinct(c, s);
    var d, s' := Appended(c, elt), s + [elt];
    forall i | 0 <= i < |s'|
      ensures d.prev[s'[i]] == Elem(s', i - 1) && d.next[s'[i]] == Elem(s', i + 1)
    {
      assert i < |s| ==> c.prev[s[i]] == Elem(s, i - 1) && c.next[s[i]] == Elem(s, i + 1);
    }
  }

  function Unlinked(c: Chain, elt: int): Chain
    requires InBounds(c, elt) && NULL <= c.prev[elt] < |c.prev| && NULL <= c.next[elt] < |c.prev|
  {
    var before, after := c.prev[elt], c.next[elt];
    Chain((if after != NULL then c.prev[after := before] else c.prev)[elt := UNLINKED],
          (if before != NULL then c.next[before := after] else c.next)[elt := UNLINKED],
          if before != NULL then c.head else after,
          if after != NULL then c.tail else before)
  }

  lemma CutForward(next: seq<int>, s: seq<int>, at: nat, next': seq<int>)
    requires Distinct(s) && Forward(next, s) && at < |s| && |next'| == |next|
    requires forall k :: 0 <= k < |next| && k != s[at] && k != Elem(s, at - 1) ==> next'[k] == next[k]
    requires at > 0 ==> next'[s[at - 1]] == next[s[at]]
    ensures Forward(next', s[..at] + s[at + 1..])
  {
    var s' := s[..at] + s[at + 1..];
    forall i | 0 <= i < |s'|
      ensures 0 <= s'[i] < |next'| && next'[s'[i]] == Elem(s', i + 1)
    {
      var k := if i < at then i else i + 1;
      assert s'[i] == s[k] && next[s[k]] == Elem(s, k + 1) && next[s[at]] == Elem(s, at + 1);
    }
  }

  lemma CutBackward(prev: seq<int>, s: seq<int>, at: nat, prev': seq<int>)
    requires Distinct(s) && Backward(prev, s) && at < |s| && |prev'| == |prev|
    requires forall k :: 0 <= k < |prev| && k != s[at] && k != Elem(s, at + 1) ==> prev'[k] == prev[k]
    requires at < |s| - 1 ==> prev'[s[at + 1]] == prev[s[at]]
    ensures Backward(prev', s[..at] + s[at + 1..])
  {
    var s' := s[..at] + s[at + 1..];
    forall i | 0 <= i < |s'|
      ensures 0 <= s'[i] < |prev'| && prev'[s'[i]] == Elem(s', i - 1)
    {
      var k := if i < at then i else i + 1;
      assert s'[i] == s[k] && prev[s[k]] == Elem(s, k - 1) && prev[s[at]] == Elem(s, at - 1);
    }
  }

  lemma InsertForward(next: seq<int>, s: seq<int>, at: nat, elt: int)
    requires Distinct(s) && Forward(next, s) && 0 < at < |s| && 0 <= elt < |next| && elt !in s
    ensures Forward(next[elt := s[at]][s[at - 1] := elt], s[..at] + [elt] + s[at..])
  {
    var s', next' := s[..at] + [elt] + s[at..], next[elt := s[at]][s[at - 1] := elt];
    forall i | 0 <= i < |s'|
      ensures 0 <= s'[i] < |next'| && next'[s'[i]] == Elem(s', i + 1)
    {
      if i != at {
        var k := if i < at then i else i - 1;
        assert s'[i] == s[k] && next[s[k]] == Elem(s, k + 1);
      }
    }
  }

  lemma InsertBackward(prev: seq<int>, s: seq<int>, at: nat, elt: int)
    requires Distinct(s) && Backward(prev, s) && 0 < at < |s| && 0 <= elt < |prev| && elt !in s
    ensures Backward(prev[elt := s[at - 1]][s[at] := elt], s[..at] + [elt] + s[at..])
  {
    var s', prev' := s[..at] + [elt] + s[at..], prev[elt := s[at - 1]][s[at] := elt];
    forall i | 0 <= i < |s'|
      ensures 0 <= s'[i] < |prev'| && prev'[s'[i]] == Elem(s', i - 1)
    {
      if i != at {
        var k := if i < at then i else i - 1;
        assert s'[i] == s[k] && prev[s[k]] == Elem(s, k - 1);
      }
    }
  }

  /** What ISC_LIST_UNLINK reads: the neighbours, and the ends of the list that its INSISTs look at. */
  ghost predicate CanUnlink(c: Chain, elt: int) {
    && InBounds(c, elt) && NULL <= c.prev[elt] < |c.prev| && NULL <= c.next[elt] < |c.prev|
    && c.prev[elt] != elt && c.next[elt] != elt
    && (c.next[elt] == NULL ==> c.tail == elt) && (c.prev[elt] == NULL ==> c.head == elt)
  }

  lemma UnlinkedAt(c: Chain, s: seq<int>, at: nat)
    requires Spells(c, s) && Distinct(s) && at < |s|
    ensures CanUnlink(c, s[at])
    ensures Spells(Unlinked(c, s[at]), s[..at] + s[at + 1..]) && SameBut(c, Unlinked(c, s[at]), s)
  {
    assert c.prev[s[at]] == Elem(s, at - 1) && c.next[s[at]] == Elem(s, at + 1);
    CutForward(c.next, s, at, Unlinked(c, s[at]).next);
    CutBackward(c.prev, s, at, Unlinked(c, s[at]).prev);
  }

  lemma UnlinkedSpells(c: Chain, s: seq<int>, elt: int)
    requires Spells(c, s) && elt in s
    ensures CanUnlink(c, elt)
    ensures Spells(Unlinked(c, elt), Without(s, elt)) && SameBut(c, Unlinked(c, elt), s)
  {
    SpellsDistinct(c, s);
    var at :| 0 <= at < |s| && s[at] == elt;
    UnlinkedAt(c, s, at);
    WithoutAt(s, at);
  }

  /** Links rewritten around the gap between s[at - 1] and s[at] so that `elt` sits in it. */
  lemma PutBetween(c: Chain, s: seq<int>, at: nat, elt: int)
    requires Spells(c, s) && 0 < at < |s| && 0 <= elt < |c.prev| && elt !in s
    ensures c.prev[s[at]] == s[at - 1] && c.next[s[at - 1]] == s[at]
    ensures
      var d := c.(prev := c.prev[elt := s[at - 1]][s[at] := elt], next := c.next[elt := s[at]][s[at - 1] := elt]);
      Spells(d, s[..at] + [elt] + s[at..]) && SameBut(c, d, s[..at] + [elt] + s[at..])
  {
    SpellsDistinct(c, s);
    InsertForward(c.next, s, at, elt);
    InsertBackward(c.prev, s, at, elt);
    assert s[at] in s[at..] && s[at - 1] in s[..at];
  }

  lemma JoinForward(next: seq<int>, s: seq<int>, t: seq<int>)
    requires Forward(next, s) && Forward(next, t) && Distinct(s) && s != [] && t != [] && Disjoint(s, t)
    ensures Forward(next[s[|s| - 1] := t[0]], s + t)
  {
    var u, next' := s + t, next[s[|s| - 1] := t[0]];
    forall i | 0 <= i < |u| ensures 0 <= u[i] < |next'| && next'[u[i]] == Elem(u, i + 1) {
      if i < |s| {
        assert u[i] == s[i] && next[s[i]] == Elem(s, i + 1);
      } else {
        assert u[i] == t[i - |s|] && next[t[i - |s|]] == Elem(t, i - |s| + 1);
        assert s[|s| - 1] in s && u[i] in t;
      }
    }
  }

  lemma JoinBackward(prev: seq<int>, s: seq<int>, t: seq<int>)
    requires Backward(prev, s) && Backward(prev, t) && Distinct(t) && s != [] && t != [] && Disjoint(s, t)
    ensures Backward(prev[t[0] := s[|s| - 1]], s + t)
  {
    var u, prev' := s + t, prev[t[0] := s[|s| - 1]];
    forall i | 0 <= i < |u| ensures 0 <= u[i] < |prev'| && prev'[u[i]] == Elem(u, i - 1) {
      if i < |s| {
        assert u[i] == s[i] && prev[s[i]] == Elem(s, i - 1);
        assert t[0] in t && s[i] in s;
      } else {
        assert u[i] == t[i - |s|] && prev[t[i - |s|]] == Elem(t, i - |s| - 1);
      }
    }
  }

  /** Both branches of ISC_LIST_APPENDLIST: the second list goes after the first. */
  function Joined(c: Chain, d: Chain): Chain
    requires c.head == NULL || d.head == NULL || (0 <= d.head < |c.prev| && 0 <= c.tail < |c.next|)
  {
    if c.head == NULL then Chain(c.prev, c.next, d.head, d.tail)
    else if d.head == NULL then c
    else Chain(c.prev[d.head := c.tail], c.next[c.tail := d.head], c.head, d.tail)
  }

  lemma JoinedSpells(c: Chain, s: seq<int>, d: Chain, t: seq<int>)
    requires c.prev == d.prev && c.next == d.next && Spells(c, s) && Spells(d, t) && Disjoint(s, t)
    ensures Spells(Joined(c, d), s + t) && SameBut(c, Joined(c, d), s + t)
  {
    if s == [] {
      assert s + t == t;
    } else if t == [] {
      assert s + t == s;
    } else {
      assert Forward(c.next[c.tail := d.head], s + t) by {
        SpellsDistinct(c, s);
        JoinForward(c.next, s, t);
      }
      assert Backward(c.prev[d.head := c.tail], s + t) by {
        SpellsDistinct(d, t);
        JoinBackward(c.prev, s, t);
      }
      assert c.tail in s && d.head in t;
    }
  }

  class List {
    var head: int
    var tail: int
    ghost var elems: seq<int>

    /** ISC_LIST_INIT */
    constructor ()
      ensures head == NULL && tail == NULL && elems == []
    {
      head, tail, elems := NULL, NULL, [];
    }
  }

  class Links {
    var prev: seq<int>
    var next: seq<int>

    ghost function ChainOf(list: List): Chain
      reads this, list
    {
      Chain(prev, next, list.head, list.tail)
    }

    ghost predicate Holds(list: List)
      reads this, list
    {
      Spells(ChainOf(list), list.elems)
    }

    /** ISC_LINK_LINKED */
    predicate Linked(elt: int)
      requires 0 <= elt < |prev|
      reads this
    {
      prev[elt] != UNLINKED
    }

    /** ISC_LINK_INIT on every element */
    constructor (n: nat)
      ensures |prev| == |next| == n && forall k :: 0 <= k < n ==> !Linked(k)
    {
      prev := seq(n, _ => UNLINKED);
      next := seq(n, _ => UNLINKED);
    }

    method Prepend(list: List, elt: int)
      requires Holds(list) && 0 <= elt < |prev| && !Linked(elt)
      modifies this, list
      ensures Holds(list) && list.elems == [elt] + old(list.elems)
      ensures SameBut(old(ChainOf(list)), ChainOf(list), list.elems)
    {
      UnlinkedIsElsewhere(ChainOf(list), list.elems, elt);
      PrependedSpells(ChainOf(list), list.elems, elt);
      if list.head != NULL {
        prev := prev[list.head := elt];
      } else {
        list.tail := elt;
      }
      prev := prev[elt := NULL];
      next := next[elt := list.head];
      list.head := elt;
      list.elems := [elt] + list.elems;
    }

    method Append(list: List, elt: int)
      requires Holds(list) && 0 <= elt < |prev| && !Linked(elt)
      modifies this, list
      ensures Holds(list) && list.elems == old(list.elems) + [elt]
      ensures SameBut(old(ChainOf(list)), ChainOf(list), list.elems)
    {
      UnlinkedIsElsewhere(ChainOf(list), list.elems, elt);
      AppendedSpells(ChainOf(list), list.elems, elt);
      if list.tail != NULL {
        next := next[list.tail := elt];
      } else {
        list.head := elt;
      }
      prev := prev[elt := list.tail];
      next := next[elt := NULL];
      list.tail := elt;
      list.elems := list.elems + [elt];
    }

    /** The two assertions are the INSISTs of the macro. */
    method Unlink(list: List, elt: int)
      requires Holds(list) && elt in list.elems
      modifies this, list
      ensures Holds(list) && list.elems == Without(old(list.elems), elt)
      ensures 0 <= elt < |prev| && !Linked(elt) && next[elt] == UNLINKED
      ensures SameBut(old(ChainOf(list)), ChainOf(list), old(list.elems))
    {
      UnlinkedSpells(ChainOf(list), list.elems, elt);
      if next[elt] != NULL {
        prev := prev[next[elt] := prev[elt]];
      } else {
        assert list.tail == elt;
        list.tail := prev[elt];
      }
      if prev[elt] != NULL {
        next := next[prev[elt] := next[elt]];
      } else {
        assert list.head == elt;
        list.head := next[elt];
      }
      prev := prev[elt := UNLINKED];
      next := next[elt := UNLINKED];
      assert ChainOf(list) == Unlinked(old(ChainOf(list)), elt);
      list.elems := Without(list.elems, elt);
    }

    method InsertBefore(list: List, before: int, elt: int, ghost at: nat)
      requires Holds(list) && at < |list.elems| && list.elems[at] == before
      requires 0 <= elt < |prev| && !Linked(elt)
      modifies this, list
      ensures Holds(list) && list.elems == old(list.elems[..at] + [elt] + list.elems[at..])
      ensures SameBut(old(ChainOf(list)), ChainOf(list), list.elems)
    {
      if prev[before] == NULL {
        Prepend(list, elt);
      } else {
        UnlinkedIsElsewhere(ChainOf(list), list.elems, elt);
        PutBetween(ChainOf(list), list.elems, at, elt);
        prev := prev[elt := prev[before]];
        prev := prev[before := elt];
        next := next[prev[elt] := elt];
        next := next[elt := before];
        assert next == old(next)[elt := before][list.elems[at - 1] := elt];
        list.elems := list.elems[..at] + [elt] + list.elems[at..];
      }
    }

    method InsertAfter(list: List, after: int, elt: int, ghost at: nat)
      requires Holds(list) && at < |list.elems| && list.elems[at] == after
      requires 0 <= elt < |prev| && !Linked(elt)
      modifies this, list
      ensures Holds(list) && list.elems == old(list.elems[..at + 1] + [elt] + list.elems[at + 1..])
      ensures SameBut(old(ChainOf(list)), ChainOf(list), list.elems)
    {
      if next[after] == NULL {
        Append(list, elt);
      } else {
        UnlinkedIsElsewhere(ChainOf(list), list.elems, elt);
        PutBetween(ChainOf(list), list.elems, at + 1, elt);
        next := next[elt := next[after]];
        next := next[after := elt];
        prev := prev[next[elt] := elt];
        prev := prev[elt := after];
        assert prev == old(prev)[elt := after][list.elems[at + 1] := elt];
        list.elems := list.elems[..at + 1] + [elt] + list.elems[at + 1..];
      }
    }

    method AppendList(list1: List, list2: List)
      requires Holds(list1) && Holds(list2) && list1 != list2 && Disjoint(list1.elems, list2.elems)
      modifies this, list1, list2
      ensures Holds(list1) && list1.elems == old(list1.elems + list2.elems)
      ensures Holds(list2) && list2.elems == []
      ensures SameBut(old(ChainOf(list1)), ChainOf(list1), list1.elems)
    {
      JoinedSpells(ChainOf(list1), list1.elems, ChainOf(list2), list2.elems);
      if list1.head == NULL {
        list1.head, list1.tail := list2.head, list2.tail;
      } else if list2.head != NULL {
        next := next[list1.tail := list2.head];
        prev := prev[list2.head := list1.tail];
        list1.tail := list2.tail;
      }
      assert ChainOf(list1) == Joined(old(ChainOf(list1)), old(ChainOf(list2)));
      list1.elems := list1.elems + list2.elems;
      list2.head, list2.tail, list2.elems := NULL, NULL, [];
    }

    method PrependList(list1: List, list2: List)
      requires Holds(list1) && Holds(list2) && list1 != list2 && Disjoint(list2.elems, list1.elems)
      modifies this, list1, list2
      ensures Holds(list1) && list1.elems == old(list2.elems + list1.elems)
      ensures Holds(list2) && list2.elems == []
      ensures SameBut(old(ChainOf(list1)), ChainOf(list1), list1.elems)
    {
      JoinedSpells(ChainOf(list2), list2.elems, ChainOf(list1), list1.elems);
      if list1.head == NULL {
        list1.head, list1.tail := list2.head, list2.tail;
      } else if list2.head != NULL {
        next := next[list2.tail := list1.head];
        prev := prev[list1.head := list2.tail];
        list1.head := list2.head;
      }
      assert ChainOf(list1) == Joined(old(ChainOf(list2)), old(ChainOf(list1)));
      list1.elems := list2.elems + list1.elems;
      list2.head, list2.tail, list2.elems := NULL, NULL, [];
    }

    /** Unlinking from one of two lists threaded through the same elements leaves the other alone. */
    method UnlinkBeside(list: List, ghost other: List, elt: int)
      requires Holds(list) && Holds(other) && list != other
      requires elt in list.elems && Disjoint(other.elems, list.elems)
      modifies this, list
      ensures Holds(list) && list.elems == Without(old(list.elems), elt)
      ensures Holds(other) && other.elems == Without(old(other.elems), elt) && |prev| == |old(prev)|
      ensures 0 <= elt < |prev| && !Linked(elt)
    {
      WithoutOther(other.elems, elt);
      Unlink(list, elt);
      SpellsFrame(old(ChainOf(other)), other.elems, ChainOf(other), old(list.elems));
    }

    method PrependBeside(list: List, ghost other: List, elt: int)
      requires Holds(list) && Holds(other) && list != other
      requires Disjoint(other.elems, list.elems) && 0 <= elt < |prev| && !Linked(elt)
      modifies this, list
      ensures Holds(list) && list.elems == [elt] + old(list.elems)
      ensures Holds(other) && |prev| == |old(prev)|
    {
      UnlinkedIsElsewhere(ChainOf(other), other.elems, elt);
      Prepend(list, elt);
      SpellsFrame(old(ChainOf(other)), other.elems, ChainOf(other), list.elems);
    }

    method AppendBeside(list: List, ghost other: List, elt: int)
      requires Holds(list) && Holds(other) && list != other
      requires Disjoint(other.elems, list.elems) && 0 <= elt < |prev| && !Linked(elt)
      modifies this, list
      ensures Holds(list) && list.elems == old(list.elems) + [elt]
      ensures Holds(other) && SameBut(old(ChainOf(list)), ChainOf(list), list.elems)
    {
      UnlinkedIsElsewhere(ChainOf(other), other.elems, elt);
      Append(list, elt);
      SpellsFrame(old(ChainOf(other)), other.elems, ChainOf(other), list.elems);
    }
  }
}
