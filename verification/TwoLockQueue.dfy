/**
 The two-lock queue of isc/queue.h: a singly linked chain that starts at a header node, a tail pointer, one lock for
 the pushers and one for the poppers.

 Nodes are indices; node 0 is the header.  The first part is the protocol, one shared-memory access of a lock holder
 per step, for any number of threads.  The second part is PUSH and POP run by one thread.
 */
module TwoLockQueue {

  import IscList

  const HEAD := 0

  /** The (void *)(-1) that ends the chain. */
  const NIL := -1

  /** Who owns an element: the program, a pusher waiting for the lock, the queue, or a popper still clearing its link. */
  datatype Place = Out | Ready | In | Leaving

  /** The holder of the tail lock in PUSH: about to link, or linked and about to move the tail. */
  datatype Push = NoPush | Holding(elt: int) | Linked(elt: int)

  /**
   The holder of the head lock in POP: it has read the first element, then what is behind it, has stored that in the
   header, or has found that the element was the last.
   */
  datatype Pop = NoPop | Got(ret: int) | Loaded(ret: int, behind: int) | Unlinked(ret: int) | NeedTail(ret: int)

  /** `pushed` and `popped` record the elements in the order in which the chain gained and lost them. */
  datatype State = State(next: seq<int>, place: seq<Place>, tail: int, push: Push, pop: Pop,
                         pushed: seq<int>, popped: seq<int>)

  datatype Step =
    | Prepare(elt: int)
    | LockTail(elt: int)
    | PushLink
    | PushAdvance
    | PopRead
    | PopLoad
    | PopStore
    | PopTest
    | PopReset
    | Clear(elt: int)

  /** n elements besides the header. */
  function Start(n: nat): State {
    State(seq(n + 1, _ => NIL), seq(n + 1, _ => Out), HEAD, NoPush, NoPop, [], [])
  }

  predicate Bounded(s: State) {
    && |s.next| == |s.place| && |s.next| > 0
    && 0 <= s.tail < |s.next|
    && (!s.push.NoPush? ==> 0 < s.push.elt < |s.next|)
    && (!s.pop.NoPop? ==> 0 < s.pop.ret < |s.next|)
  }

  predicate CanStep(s: State, t: Step) {
    && Bounded(s)
    && match t
       case Prepare(e) => 0 < e < |s.next| && s.place[e] == Out
       case LockTail(e) => s.push.NoPush? && 0 < e < |s.next| && s.place[e] == Ready
       case PushLink => s.push.Holding?
       case PushAdvance => s.push.Linked?
       case PopRead => s.pop.NoPop? && (s.next[HEAD] == NIL || 0 < s.next[HEAD] < |s.next|)
       case PopLoad => s.pop.Got?
       case PopStore => s.pop.Loaded?
       case PopTest => s.pop.Unlinked?
       case PopReset => s.pop.NeedTail? && s.push.NoPush?
       case Clear(e) => 0 < e < |s.next| && s.place[e] == Leaving && (s.pop.NoPop? || s.pop.ret != e)
  }

  function Apply(s: State, t: Step): State
    requires CanStep(s, t)
  {
    match t
    case Prepare(e) => s.(next := s.next[e := NIL], place := s.place[e := Ready])
    case LockTail(e) => s.(push := Holding(e))
    case PushLink =>
      var e := s.push.elt;
      s.(next := s.next[s.tail := e], place := s.place[e := In], push := Linked(e), pushed := s.pushed + [e])
    case PushAdvance => s.(tail := s.push.elt, push := NoPush)
    case PopRead => if s.next[HEAD] == NIL then s else s.(pop := Got(s.next[HEAD]))
    case PopLoad => s.(pop := Loaded(s.pop.ret, s.next[s.pop.ret]))
    case PopStore =>
      var r := s.pop.ret;
      s.(next := s.next[HEAD := s.pop.behind], place := s.place[r := Leaving], pop := Unlinked(r),
         popped := s.popped + [r])
    case PopTest => s.(pop := if s.next[s.pop.ret] == NIL then NeedTail(s.pop.ret) else NoPop)
    case PopReset => s.(tail := HEAD, pop := NoPop)
    case Clear(e) => s.(next := s.next[e := NIL], place := s.place[e := Out])
  }

  /** The i-th node of a chain that carries q behind the header. */
  function Node(q: seq<int>, i: int): int
    requires 0 <= i <= |q|
  {
    if i == 0 then HEAD else q[i - 1]
  }

  /** Following the links from the header gives q and ends there. */
  ghost predicate Spells(next: seq<int>, q: seq<int>) {
    && |next| > 0
    && (forall i :: 0 <= i < |q| ==> 0 < q[i] < |next|)
    && (forall i {:trigger Node(q, i)} :: 0 <= i <= |q| ==>
      next[Node(q, i)] == if i < |q| then q[i] else NIL)
  }

  /** Pushed but not yet popped, oldest first. */
  function Queued(s: State): seq<int>
    requires |s.popped| <= |s.pushed|
  {
    s.pushed[|s.popped|..]
  }

  /** What a queue promises: elements leave in the order they came, and the chain is what has come and not left. */
  ghost predicate Fifo(s: State) {
    s.popped <= s.pushed && Spells(s.next, Queued(s))
  }

  /** The tail as the pushers will see it once the push in progress is over. */
  function NextTail(s: State): int {
    if s.push.Linked? then s.push.elt else s.tail
  }

  /** The element just taken off was the last one, and the tail still points to it. */
  ghost predicate TookLast(s: State, q: seq<int>)
    requires Bounded(s)
  {
    && (s.pop.Unlinked? || s.pop.NeedTail?)
    && q == [] && NextTail(s) == s.pop.ret && s.next[s.pop.ret] == NIL
  }

  /** In the middle of a push the tail is the node before the new one, if it has not been popped meanwhile. */
  ghost predicate PushOk(s: State, q: seq<int>)
    requires Bounded(s)
  {
    match s.push
    case NoPush => true
    case Holding(e) => s.place[e] == Ready
    case Linked(e) => q == [] || s.tail == Node(q, |q| - 1) || (s.tail != HEAD && s.place[s.tail] != In)
  }

  ghost predicate PopOk(s: State, q: seq<int>)
    requires Bounded(s)
  {
    match s.pop
    case NoPop => true
    case Got(r) => |q| > 0 && q[0] == r
    case Loaded(r, behind) => |q| > 0 && q[0] == r && (behind == NIL || (|q| > 1 && behind == q[1]))
    case Unlinked(r) => s.place[r] == Leaving && (if q == [] then TookLast(s, q) else s.next[r] == q[0])
    case NeedTail(r) => s.place[r] == Leaving && TookLast(s, q)
  }

  ghost predicate PlacesOk(s: State, q: seq<int>)
    requires Bounded(s)
  {
    && s.place[HEAD] == Out
    && (forall e {:trigger s.place[e]} :: 0 < e < |s.place| ==> (s.place[e] == In <==> e in q))
    && (forall e {:trigger s.place[e]} :: 0 < e < |s.place| && s.place[e] == Ready ==> s.next[e] == NIL)
  }

  ghost predicate EndsOk(s: State, q: seq<int>)
    requires Bounded(s)
  {
    && (NextTail(s) == Node(q, |q|) || TookLast(s, q))
    && PushOk(s, q) && PopOk(s, q)
  }

  ghost predicate Holds(s: State, q: seq<int>) {
    Bounded(s) && Spells(s.next, q) && IscList.Distinct(q) && PlacesOk(s, q) && EndsOk(s, q)
  }

  ghost predicate Inv(s: State) {
    s.popped <= s.pushed && Holds(s, Queued(s))
  }

  lemma StartInv(n: nat)
    ensures Inv(Start(n))
  {
  }

  /** A push that links behind an element already taken off. */
  predicate LosesPush(s: State, t: Step) {
    t.PushLink? && (s.pop.Unlinked? || s.pop.NeedTail?) && s.tail == s.pop.ret
  }

  /** A pop that stores what it has read although a push has linked something there since. */
  predicate LosesPop(s: State, t: Step) {
    t.PopStore? && CanStep(s, t) && s.pop.behind != s.next[s.pop.ret]
  }

  predicate Loses(s: State, t: Step) {
    LosesPush(s, t) || LosesPop(s, t)
  }

  lemma Appended(next: seq<int>, q: seq<int>, e: int)
    requires Spells(next, q) && IscList.Distinct(q)
    requires 0 < e < |next| && e !in q && next[e] == NIL
    ensures Spells(next[Node(q, |q|) := e], q + [e]) && IscList.Distinct(q + [e])
  {
    var next', q' := next[Node(q, |q|) := e], q + [e];
    forall i {:trigger Node(q', i)} | 0 <= i <= |q'| ensures next'[Node(q', i)] == if i < |q'| then q'[i] else NIL {
      if i <= |q| {
        assert Node(q', i) == Node(q, i);
      }
    }
  }

  lemma Dropped(next: seq<int>, q: seq<int>)
    requires Spells(next, q) && IscList.Distinct(q) && |q| > 0
    ensures Spells(next[HEAD := next[q[0]]], q[1..]) && IscList.Distinct(q[1..])
    ensures next[q[0]] == if |q| > 1 then q[1] else NIL
  {
    var next', q' := next[HEAD := next[q[0]]], q[1..];
    assert Node(q, 1) == q[0];
    forall i {:trigger Node(q', i)} | 0 <= i <= |q'| ensures next'[Node(q', i)] == if i < |q'| then q'[i] else NIL {
      assert i > 0 ==> Node(q', i) == Node(q, i + 1);
    }
  }

  lemma Untouched(next: seq<int>, q: seq<int>, e: int)
    requires Spells(next, q) && 0 < e < |next| && e !in q
    ensures Spells(next[e := NIL], q)
  {
  }

  lemma PushLinkHolds(s: State, q: seq<int>)
    requires Holds(s, q) && CanStep(s, PushLink) && !Loses(s, PushLink)
    ensures Holds(Apply(s, PushLink), q + [s.push.elt])
  {
    var e, s', q' := s.push.elt, Apply(s, PushLink), q + [s.push.elt];
    Appended(s.next, q, e);
    assert Node(q', |q|) == s.tail && Node(q', |q'|) == e;
    assert PlacesOk(s', q');
    assert q != [] ==> q'[0] == q[0];
  }

  lemma PopStorePlaces(s: State, q: seq<int>)
    requires Bounded(s) && Spells(s.next, q) && IscList.Distinct(q) && PlacesOk(s, q)
    requires s.pop.Loaded? && |q| > 0 && q[0] == s.pop.ret
    ensures PlacesOk(Apply(s, PopStore), q[1..])
  {
    assert q == [s.pop.ret] + q[1..];
  }

  lemma PopStoreHolds(s: State, q: seq<int>)
    requires Holds(s, q) && CanStep(s, PopStore) && !Loses(s, PopStore)
    ensures Holds(Apply(s, PopStore), q[1..])
  {
    var q' := q[1..];
    Dropped(s.next, q);
    PopStorePlaces(s, q);
    if q' != [] {
      assert Node(q', |q'|) == Node(q, |q|);
      assert |q'| > 1 ==> Node(q', |q'| - 1) == Node(q, |q| - 1);
    }
  }

  lemma ClearedHolds(s: State, q: seq<int>, t: Step)
    requires Holds(s, q) && CanStep(s, t) && (t.Prepare? || t.Clear?)
    ensures Holds(Apply(s, t), q)
  {
    Untouched(s.next, q, t.elt);
    assert PlacesOk(Apply(s, t), q);
  }

  lemma OtherHolds(s: State, q: seq<int>, t: Step)
    requires Holds(s, q) && CanStep(s, t)
    requires t.LockTail? || t.PushAdvance? || t.PopRead? || t.PopLoad? || t.PopTest? || t.PopReset?
    ensures Holds(Apply(s, t), q)
  {
    assert Node(q, 0) == HEAD && (|q| > 0 ==> Node(q, 1) == q[0]);
    assert PlacesOk(Apply(s, t), q);
  }

  lemma LostPush(s: State, q: seq<int>)
    requires Holds(s, q) && CanStep(s, PushLink) && Loses(s, PushLink)
    ensures q == [] && !Spells(Apply(s, PushLink).next, [s.push.elt])
  {
    assert Node(q, 0) == Node([s.push.elt], 0) == HEAD;
  }

  lemma LostByPop(s: State, q: seq<int>)
    requires Holds(s, q) && CanStep(s, PopStore) && Loses(s, PopStore)
    ensures |q| > 1 && s.pop.behind == NIL && !Spells(Apply(s, PopStore).next, q[1..])
  {
    assert Node(q, 1) == q[0] && Node(q[1..], 0) == HEAD;
  }

  /** Every step keeps the queue a queue, unless it is one of the two that lose; then what was pushed is lost. */
  lemma EveryStep(s: State, t: Step)
    requires Inv(s) && CanStep(s, t)
    ensures if Loses(s, t) then !Fifo(Apply(s, t)) else Inv(Apply(s, t))
  {
    var q, s' := Queued(s), Apply(s, t);
    match t
    case PushLink =>
      assert Queued(s') == q + [s.push.elt];
      if Loses(s, t) {
        LostPush(s, q);
      } else {
        PushLinkHolds(s, q);
      }
    case PopStore =>
      assert Queued(s') == q[1..];
      if Loses(s, t) {
        LostByPop(s, q);
      } else {
        PopStoreHolds(s, q);
      }
    case PopLoad => OtherHolds(s, q, t);
    case Prepare(e) => ClearedHolds(s, q, t);
    case Clear(e) => ClearedHolds(s, q, t);
    case PopRead => OtherHolds(s, q, t);
    case LockTail(e) => OtherHolds(s, q, t);
    case PushAdvance => OtherHolds(s, q, t);
    case PopTest => OtherHolds(s, q, t);
    case PopReset => OtherHolds(s, q, t);
  }

  predicate Legal(s: State, steps: seq<Step>)
    decreases |steps|
  {
    steps == [] || (CanStep(s, steps[0]) && Legal(Apply(s, steps[0]), steps[1..]))
  }

  function Exec(s: State, steps: seq<Step>): State
    requires Legal(s, steps)
    decreases |steps|
  {
    if steps == [] then s else Exec(Apply(s, steps[0]), steps[1..])
  }

  ghost predicate AlwaysFifo(s: State, steps: seq<Step>)
    requires Legal(s, steps)
    decreases |steps|
  {
    Fifo(s) && (steps == [] || AlwaysFifo(Apply(s, steps[0]), steps[1..]))
  }

  predicate NeverLoses(s: State, steps: seq<Step>)
    requires Legal(s, steps)
    decreases |steps|
  {
    steps == [] || (!Loses(s, steps[0]) && NeverLoses(Apply(s, steps[0]), steps[1..]))
  }

  /** Over every interleaving the queue is first in, first out exactly when neither losing step is taken. */
  lemma {:induction false} FifoIff(s: State, steps: seq<Step>)
    requires Inv(s) && Legal(s, steps)
    ensures AlwaysFifo(s, steps) <==> NeverLoses(s, steps)
    ensures NeverLoses(s, steps) ==> Inv(Exec(s, steps))
    decreases |steps|
  {
    if steps != [] {
      EveryStep(s, steps[0]);
      var s' := Apply(s, steps[0]);
      if !Loses(s, steps[0]) {
        FifoIff(s', steps[1..]);
      }
    }
  }

  /**
   A pop is overtaken by a push once it has read that nothing is behind its element.  From then on it can only lose:
   every other step leaves it overtaken, and its next step is the losing one.
   */
  predicate Overtaken(s: State) {
    Bounded(s) && s.pop.Loaded? && s.pop.behind == NIL && s.next[s.pop.ret] != NIL
  }

  lemma OvertakenLoses(s: State, t: Step)
    requires Inv(s) && CanStep(s, t)
    ensures Overtaken(s) && !t.PopStore? ==> Overtaken(Apply(s, t))
    ensures Overtaken(s) && t.PopStore? ==> Loses(s, t)
    ensures t.PushLink? && s.pop.Loaded? && s.pop.behind == NIL && s.tail == s.pop.ret ==> Overtaken(Apply(s, t))
  {
    if s.pop.Loaded? {
      assert s.pop.ret in Queued(s);
    }
  }

  /** A pop answers with the oldest element, and with nothing exactly when there is none. */
  lemma PopReadsOldest(s: State)
    requires Inv(s) && s.pop.NoPop?
    ensures CanStep(s, PopRead)
    ensures s.next[HEAD] == (if Queued(s) == [] then NIL else Queued(s)[0])
  {
    assert Node(Queued(s), 0) == HEAD;
  }

  /** With no push or pop in progress the tail is the last node of the chain. */
  lemma TailIsLast(s: State)
    requires Inv(s) && s.push.NoPush? && s.pop.NoPop?
    ensures s.tail == Node(Queued(s), |Queued(s)|)
    ensures s.tail == HEAD <==> Queued(s) == []
  {
  }

  /** A push that arrives while the only element is being popped. */
  function LosingSteps(e: int): seq<Step> {
    [PopRead, PopLoad, PopStore, LockTail(e), PushLink, PushAdvance, PopTest]
  }

  /** The same, with the push between the load and the store of the pop. */
  function OvertakenSteps(e: int): seq<Step> {
    [PopRead, PopLoad, LockTail(e), PushLink, PushAdvance, PopStore, PopTest]
  }

  function Lost(s: State, a: int, e: int): State
    requires |s.next| == |s.place| && 0 < a < |s.next| && 0 < e < |s.next|
  {
    State(s.next[HEAD := NIL][a := e], s.place[a := Leaving][e := In], e, NoPush, NoPop,
          s.pushed + [e], s.popped + [a])
  }

  lemma OneStep(s: State, t: Step, rest: seq<Step>)
    requires CanStep(s, t) && Legal(Apply(s, t), rest)
    ensures Legal(s, [t] + rest) && Exec(s, [t] + rest) == Exec(Apply(s, t), rest)
  {
    assert ([t] + rest)[1..] == rest;
  }

  lemma LosingRun(s: State, a: int, e: int)
    requires Bounded(s) && s.push.NoPush? && s.pop.NoPop?
    requires 0 < e < |s.next| && s.place[e] == Ready && 0 < a < |s.next| && a != e
    requires s.tail == a && s.next[HEAD] == a && s.next[a] == NIL
    ensures Legal(s, LosingSteps(e)) && Exec(s, LosingSteps(e)) == Lost(s, a, e)
  {
    var s0 := s.(pop := Got(a));
    var s1 := s.(pop := Loaded(a, NIL));
    var s2 := s1.(next := s.next[HEAD := NIL], place := s.place[a := Leaving], pop := Unlinked(a),
                  popped := s.popped + [a]);
    var s3 := s2.(push := Holding(e));
    var s4 := s3.(next := s2.next[a := e], place := s2.place[e := In], push := Linked(e), pushed := s.pushed + [e]);
    var s5 := s4.(tail := e, push := NoPush);
    assert Legal(Lost(s, a, e), []);
    OneStep(s5, PopTest, []);
    OneStep(s4, PushAdvance, [PopTest]);
    OneStep(s3, PushLink, [PushAdvance, PopTest]);
    OneStep(s2, LockTail(e), [PushLink, PushAdvance, PopTest]);
    OneStep(s1, PopStore, [LockTail(e), PushLink, PushAdvance, PopTest]);
    OneStep(s0, PopLoad, [PopStore, LockTail(e), PushLink, PushAdvance, PopTest]);
    OneStep(s, PopRead, [PopLoad, PopStore, LockTail(e), PushLink, PushAdvance, PopTest]);
  }

  lemma OvertakenRun(s: State, a: int, e: int)
    requires Bounded(s) && s.push.NoPush? && s.pop.NoPop?
    requires 0 < e < |s.next| && s.place[e] == Ready && 0 < a < |s.next| && a != e
    requires s.tail == a && s.next[HEAD] == a && s.next[a] == NIL
    ensures Legal(s, OvertakenSteps(e)) && Exec(s, OvertakenSteps(e)) == Lost(s, a, e)
  {
    var s0 := s.(pop := Got(a));
    var s1 := s.(pop := Loaded(a, NIL));
    var s2 := s1.(push := Holding(e));
    var s3 := s2.(next := s.next[a := e], place := s.place[e := In], push := Linked(e), pushed := s.pushed + [e]);
    var s4 := s3.(tail := e, push := NoPush);
    var s5 := s4.(next := s3.next[HEAD := NIL], place := s3.place[a := Leaving], pop := Unlinked(a),
                  popped := s.popped + [a]);
    assert s5.next == Lost(s, a, e).next && s5.place == Lost(s, a, e).place;
    assert Legal(Lost(s, a, e), []);
    OneStep(s5, PopTest, []);
    OneStep(s4, PopStore, [PopTest]);
    OneStep(s3, PushAdvance, [PopStore, PopTest]);
    OneStep(s2, PushLink, [PushAdvance, PopStore, PopTest]);
    OneStep(s1, LockTail(e), [PushLink, PushAdvance, PopStore, PopTest]);
    OneStep(s0, PopLoad, [LockTail(e), PushLink, PushAdvance, PopStore, PopTest]);
    OneStep(s, PopRead, [PopLoad, LockTail(e), PushLink, PushAdvance, PopStore, PopTest]);
  }

  /** Whenever one element is queued and another is ready, both schedules lose the second: nobody can pop it any more. */
  lemma LostElement(s: State, a: int, e: int)
    requires Inv(s) && s.push.NoPush? && s.pop.NoPop? && Queued(s) == [a]
    requires 0 < e < |s.next| && s.place[e] == Ready
    ensures Legal(s, LosingSteps(e)) && Exec(s, LosingSteps(e)) == Lost(s, a, e)
    ensures Legal(s, OvertakenSteps(e)) && Exec(s, OvertakenSteps(e)) == Lost(s, a, e)
    ensures !Fifo(Lost(s, a, e)) && Lost(s, a, e).next[HEAD] == NIL
  {
    assert Node([a], 0) == HEAD && Node([a], 1) == a;
    LosingRun(s, a, e);
    OvertakenRun(s, a, e);
    assert Queued(Lost(s, a, e)) == [e];
    assert Node([e], 0) == HEAD;
  }

  /** The queue under one thread. */
  class Queue {
    var next: seq<int>
    var linked: seq<bool>
    var tail: int
    ghost var elems: seq<int>

    ghost predicate Valid()
      reads this
    {
      && |linked| == |next|
      && Spells(next, elems) && IscList.Distinct(elems)
      && 0 <= tail < |next| && tail == Node(elems, |elems|)
      && (forall e :: 0 < e < |next| ==> (linked[e] <==> e in elems))
    }

    constructor (n: nat)
      ensures Valid() && elems == [] && |next| == n + 1
    {
      next := seq(n + 1, _ => NIL);
      linked := seq(n + 1, _ => false);
      tail := HEAD;
      elems := [];
    }

    /** ISC_QUEUE_EMPTY */
    predicate IsEmpty()
      requires Valid()
      reads this
      ensures IsEmpty() <==> elems == []
    {
      HEAD == tail
    }

    /** ISC_QUEUE_PUSH */
    method Push(e: int)
      requires Valid() && 0 < e < |next| && e !in elems
      modifies this
      ensures Valid() && elems == old(elems) + [e] && |next| == old(|next|)
    {
      next := next[e := NIL];
      assert Spells(next, elems);
      Appended(next, elems, e);
      next := next[tail := e];
      tail := e;
      linked := linked[e := true];
      elems := elems + [e];
    }

    /** ISC_QUEUE_POP */
    method Pop() returns (ret: int)
      requires Valid()
      modifies this
      ensures Valid() && |next| == old(|next|)
      ensures old(elems) == [] ==> ret == NIL && elems == []
      ensures old(elems) != [] ==> [ret] + elems == old(elems)
    {
      assert Node(elems, 0) == HEAD;
      ret := next[HEAD];
      if ret != NIL {
        Dropped(next, elems);
        next := next[HEAD := next[ret]];
        if next[ret] == NIL {
          tail := HEAD;
        }
        assert elems == [ret] + elems[1..];
        elems := elems[1..];
        assert elems != [] ==> Node(elems, |elems|) == tail;
        Untouched(next, elems, ret);
        next := next[ret := NIL];
        linked := linked[ret := false];
      }
    }
  }
}
