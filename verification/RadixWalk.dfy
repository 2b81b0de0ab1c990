/**
 The walk over a radix tree in isc/radix.h: a loop with a cursor and a fixed stack of postponed right children.
 */
module RadixWalk {

  const RADIX_MAXBITS := 128

  /** A node that carries no prefix only holds its children together. */
  datatype Tree = Null | Node(bit: nat, hasPrefix: bool, id: int, l: Tree, r: Tree)

  /** Bit lengths grow on the way down and end at the length of an address. */
  predicate WellBuilt(t: Tree) {
    t.Node? ==>
      && t.bit <= RADIX_MAXBITS
      && (t.l.Node? ==> t.bit < t.l.bit) && (t.r.Node? ==> t.bit < t.r.bit)
      && WellBuilt(t.l) && WellBuilt(t.r)
  }

  function Preorder(t: Tree): seq<Tree> {
    if t.Null? then [] else [t] + Preorder(t.l) + Preorder(t.r)
  }

  function Occurrences(t: Tree, id: int): nat {
    if t.Null? then 0 else (if t.id == id then 1 else 0) + Occurrences(t.l, id) + Occurrences(t.r, id)
  }

  function Tally(s: seq<Tree>, id: int): nat {
    if s == [] then 0 else (if s[0].Node? && s[0].id == id then 1 else 0) + Tally(s[1..], id)
  }

  lemma {:induction false} TallyConcat(a: seq<Tree>, b: seq<Tree>, id: int)
    ensures Tally(a + b, id) == Tally(a, id) + Tally(b, id)
  {
    if a == [] {
      assert a + b == b;
    } else {
      TallyConcat(a[1..], b, id);
      assert (a + b)[1..] == a[1..] + b;
    }
  }

  /** Preorder lists every node of the tree as often as the tree holds it. */
  lemma {:induction false} PreorderVisits(t: Tree, id: int)
    ensures Tally(Preorder(t), id) == Occurrences(t, id)
  {
    if t.Node? {
      PreorderVisits(t.l, id);
      PreorderVisits(t.r, id);
      TallyConcat([t] + Preorder(t.l), Preorder(t.r), id);
      TallyConcat([t], Preorder(t.l), id);
    }
  }

  /** What the body of the walk gets to see: every node, or in RADIX_WALK those with a prefix. */
  function Shown(s: seq<Tree>, all: bool): seq<Tree> {
    if s == [] then []
    else
      var last := s[|s| - 1];
      Shown(s[..|s| - 1], all) + (if last.Node? && (all || last.hasPrefix) then [last] else [])
  }

  /** The nodes still to come from the stack, the top entry first. */
  function Pending(stack: seq<Tree>): seq<Tree> {
    if stack == [] then [] else Preorder(stack[|stack| - 1]) + Pending(stack[..|stack| - 1])
  }

  /** Every postponed child is deeper than its place on the stack. */
  ghost predicate Stacked(stack: seq<Tree>) {
    forall i :: 0 <= i < |stack| ==> stack[i].Node? && WellBuilt(stack[i]) && stack[i].bit > i
  }

  /** The cursor is at least as deep as the stack is high. */
  ghost predicate Placed(at: Tree, stack: seq<Tree>) {
    WellBuilt(at) && Stacked(stack) && if at.Node? then at.bit >= |stack| else stack == []
  }

  /** The nodes still to come. */
  function Rest(at: Tree, stack: seq<Tree>): seq<Tree> {
    Preorder(at) + Pending(stack)
  }

  /** Where RADIX_WALK_END goes from a node. */
  function NextNode(at: Tree, stack: seq<Tree>): Tree
    requires at.Node?
  {
    if at.l.Node? then at.l
    else if at.r.Node? then at.r
    else if stack != [] then stack[|stack| - 1]
    else Null
  }

  function NextStack(at: Tree, stack: seq<Tree>): seq<Tree>
    requires at.Node?
  {
    if at.l.Node? then if at.r.Node? then stack + [at.r] else stack
    else if at.r.Node? then stack
    else if stack != [] then stack[..|stack| - 1]
    else []
  }

  lemma NextRest(at: Tree, stack: seq<Tree>)
    requires at.Node?
    ensures Rest(at, stack) == [at] + Rest(NextNode(at, stack), NextStack(at, stack))
  {
    assert Rest(at, stack) == [at] + (Preorder(at.l) + (Preorder(at.r) + Pending(stack)));
    assert (stack + [at.r])[..|stack|] == stack;
    assert [] + Pending(stack) == Pending(stack);
    assert [] + (Preorder(at.r) + Pending(stack)) == Preorder(at.r) + Pending(stack);
  }

  lemma NextPlaced(at: Tree, stack: seq<Tree>)
    requires Placed(at, stack) && at.Node?
    ensures Placed(NextNode(at, stack), NextStack(at, stack)) && |NextStack(at, stack)| <= RADIX_MAXBITS
  {
  }

  /** The walk stands at `at`, has passed `seen`, and will come to the rest. */
  ghost predicate Along(head: Tree, seen: seq<Tree>, at: Tree, stack: seq<Tree>) {
    Placed(at, stack) && seen + Rest(at, stack) == Preorder(head)
  }

  lemma Passed(head: Tree, seen: seq<Tree>, at: Tree, stack: seq<Tree>)
    requires Along(head, seen, at, stack) && at.Node?
    ensures Along(head, seen + [at], NextNode(at, stack), NextStack(at, stack))
    ensures |NextStack(at, stack)| <= RADIX_MAXBITS && |seen| < |Preorder(head)|
  {
    NextRest(at, stack);
    NextPlaced(at, stack);
    var next := Rest(NextNode(at, stack), NextStack(at, stack));
    assert (seen + [at]) + next == seen + ([at] + next);
  }

  lemma ShownNext(seen: seq<Tree>, at: Tree, all: bool)
    requires at.Node?
    ensures Shown(seen + [at], all) == Shown(seen, all) + if all || at.hasPrefix then [at] else []
  {
    assert (seen + [at])[..|seen|] == seen;
  }

  lemma Begins(head: Tree)
    requires WellBuilt(head)
    ensures Along(head, [], head, [])
  {
    assert [] + Rest(head, []) == Preorder(head);
  }

  lemma Done(head: Tree, seen: seq<Tree>, at: Tree, stack: seq<Tree>)
    requires Along(head, seen, at, stack) && at.Null?
    ensures seen == Preorder(head)
  {
    assert seen + Rest(Null, []) == seen;
  }

  /** RADIX_WALK_END */
  method Advance(stack: array<Tree>, sp: nat, at: Tree) returns (sp': nat, next: Tree)
    requires sp <= stack.Length && at.Node?
    requires |NextStack(at, stack[..sp])| <= stack.Length
    modifies stack
    ensures sp' <= stack.Length
    ensures next == NextNode(at, old(stack[..sp])) && stack[..sp'] == NextStack(at, old(stack[..sp]))
  {
    sp', next := sp, Null;
    if at.l.Node? {
      if at.r.Node? {
        stack[sp] := at.r;
        sp' := sp + 1;
      }
      next := at.l;
    } else if at.r.Node? {
      next := at.r;
    } else if sp != 0 {
      sp' := sp - 1;
      next := stack[sp'];
    }
  }

  /** RADIX_WALK_ALL, and RADIX_WALK when `all` is false. */
  method Walk(head: Tree, all: bool) returns (visits: seq<Tree>, ghost peak: nat)
    requires WellBuilt(head)
    ensures visits == Shown(Preorder(head), all)
    ensures peak <= RADIX_MAXBITS
  {
    var stack := new Tree[RADIX_MAXBITS + 1];
    var sp: nat := 0;
    var node := head;
    visits, peak := [], 0;
    ghost var seen: seq<Tree> := [];
    assert stack[..0] == [];
    Begins(head);
    while node.Node?
      invariant sp <= peak <= RADIX_MAXBITS
      invariant Along(head, seen, node, stack[..sp])
      invariant visits == Shown(seen, all)
      decreases |Preorder(head)| - |seen|
    {
      if all || node.hasPrefix {
        visits := visits + [node];
      }
      Passed(head, seen, node, stack[..sp]);
      ShownNext(seen, node, all);
      seen := seen + [node];
      sp, node := Advance(stack, sp, node);
      peak := if sp > peak then sp else peak;
    }
    Done(head, seen, node, stack[..sp]);
  }
}
