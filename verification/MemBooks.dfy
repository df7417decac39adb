/**
 * The meaning of the info nodes (mem_dbg.c): each thread has a stack of strings of its own, each tracked
 * address a private copy of the stack its allocation saw. Sharing and freeing nodes never shows.
 */
module MemBooks {
  import opened Wrappers
  import opened MemInfo
  import opened MemRuns

  datatype Books = Books(stacks: map<nat, seq<string>>, traces: map<nat, seq<string>>)

  function StackOf(b: Books, me: nat): seq<string> { if me in b.stacks then b.stacks[me] else [] }

  function WithStack(b: Books, me: nat, stack: seq<string>): Books {
    b.(stacks := if stack == [] then b.stacks - {me} else b.stacks[me := stack])
  }

  function Keep(b: Books, op: Op): Books {
    match op
    case PushInfo(me, text) => WithStack(b, me, [text] + StackOf(b, me))
    case PopInfo(me) => if StackOf(b, me) == [] then b else WithStack(b, me, StackOf(b, me)[1..])
    case Malloc(me, a) => b.(traces := b.traces[a := StackOf(b, me)])
    case Free(a) => b.(traces := b.traces - {a})
    case Realloc(a, to) => if a in b.traces then b.(traces := (b.traces - {a})[to := b.traces[a]]) else b
  }

  function KeepAll(b: Books, ops: seq<Op>): Books
    decreases |ops|
  {
    if ops == [] then b else KeepAll(Keep(b, ops[0]), ops[1..])
  }

  // ---- What the nodes stand for ----

  ghost function Chain(nodes: Nodes, p: nat): (texts: seq<string>)
    requires Linked(nodes) && p in nodes
    ensures texts != []
    decreases p
  {
    [nodes[p].text] + if nodes[p].next.None? then []
                      else assert NextOf(nodes, p, nodes[p].next.value); Chain(nodes, nodes[p].next.value)
  }

  ghost function ChainFrom(nodes: Nodes, p: Option<nat>): seq<string>
    requires Linked(nodes) && (p.Some? ==> p.value in nodes)
  {
    if p.None? then [] else Chain(nodes, p.value)
  }

  ghost function StacksOf(s: Store): map<nat, seq<string>>
    requires Shape(s)
  {
    map t | t in s.tops :: Chain(s.nodes, s.tops[t])
  }

  ghost function TracesOf(s: Store): map<nat, seq<string>>
    requires Shape(s)
  {
    map a | a in s.recs :: ChainFrom(s.nodes, s.recs[a])
  }

  ghost function BooksOf(s: Store): Books
    requires Shape(s)
  {
    Books(StacksOf(s), TracesOf(s))
  }

  ghost predicate SameNodes(n: Nodes, n': Nodes) {
    forall p :: p in n && p in n' ==> n[p] == n'[p]
  }

  lemma {:induction false} ChainKept(n: Nodes, n': Nodes, p: nat)
    requires Linked(n) && Linked(n') && SameNodes(n, n') && p in n && p in n'
    ensures Chain(n, p) == Chain(n', p)
    decreases p
  {
    if n[p].next.Some? {
      assert NextOf(n, p, n[p].next.value) && NextOf(n', p, n[p].next.value);
      ChainKept(n, n', n[p].next.value);
    }
  }

  lemma ApplyKeepsNodes(s: Store, op: Op)
    requires Safe(s)
    ensures Shape(Apply(s, op)) && SameNodes(s.nodes, Apply(s, op).nodes)
  {
    ApplySafe(s, op);
    match op {
      case PopInfo(me) => PopKeepsNodes(s, me);
      case Free(a) => FreeKeepsNodes(s, a);
      case _ =>
    }
  }

  lemma PopKeepsNodes(s: Store, me: nat)
    requires Safe(s)
    ensures SameNodes(s.nodes, Pop(s, me).nodes)
  {
    SafeIsBalanced(s);
    PopKeeps(s, Extras(s), me);
  }

  lemma FreeKeepsNodes(s: Store, a: nat)
    requires Safe(s)
    ensures SameNodes(s.nodes, Untrack(s, a).nodes)
  {
    SafeIsBalanced(s);
    UntrackKeeps(s, Extras(s), a);
  }

  // ---- One stack or one trace changes ----

  lemma StacksKept(s: Store, s': Store)
    requires Shape(s) && Shape(s') && SameNodes(s.nodes, s'.nodes) && s.tops == s'.tops
    ensures StacksOf(s) == StacksOf(s')
  {
    forall t | t in s.tops ensures StacksOf(s)[t] == StacksOf(s')[t] { ChainKept(s.nodes, s'.nodes, s.tops[t]); }
  }

  lemma StackSet(s: Store, s': Store, me: nat, p: nat)
    requires Shape(s) && Shape(s') && SameNodes(s.nodes, s'.nodes) && s'.tops == s.tops[me := p] && p in s'.nodes
    ensures StacksOf(s') == StacksOf(s)[me := Chain(s'.nodes, p)]
  {
    forall t | t in s'.tops ensures StacksOf(s')[t] == StacksOf(s)[me := Chain(s'.nodes, p)][t] {
      if t != me { ChainKept(s.nodes, s'.nodes, s.tops[t]); }
    }
  }

  lemma StackGone(s: Store, s': Store, me: nat)
    requires Shape(s) && Shape(s') && SameNodes(s.nodes, s'.nodes) && s'.tops == s.tops - {me}
    ensures StacksOf(s') == StacksOf(s) - {me}
  {
    forall t | t in s'.tops ensures StacksOf(s)[t] == StacksOf(s')[t] { ChainKept(s.nodes, s'.nodes, s.tops[t]); }
  }

  lemma ChainFromKept(s: Store, s': Store, p: Option<nat>)
    requires Shape(s) && Shape(s') && SameNodes(s.nodes, s'.nodes)
    requires p.Some? ==> p.value in s.nodes && p.value in s'.nodes
    ensures ChainFrom(s.nodes, p) == ChainFrom(s'.nodes, p)
  {
    if p.Some? { ChainKept(s.nodes, s'.nodes, p.value); }
  }

  lemma TraceSet(s: Store, s': Store, a: nat, p: Option<nat>)
    requires Shape(s) && Shape(s') && SameNodes(s.nodes, s'.nodes) && s'.recs == s.recs[a := p]
    requires p.Some? ==> p.value in s.nodes && p.value in s'.nodes
    ensures TracesOf(s') == TracesOf(s)[a := ChainFrom(s.nodes, p)]
  {
    forall x | x in s'.recs ensures TracesOf(s')[x] == TracesOf(s)[a := ChainFrom(s.nodes, p)][x] {
      ChainFromKept(s, s', s'.recs[x]);
    }
  }

  lemma TraceGone(s: Store, s': Store, a: nat)
    requires Shape(s) && Shape(s') && SameNodes(s.nodes, s'.nodes) && s'.recs == s.recs - {a}
    ensures TracesOf(s') == TracesOf(s) - {a}
  {
    forall x | x in s'.recs ensures TracesOf(s')[x] == TracesOf(s)[x] { ChainFromKept(s, s', s'.recs[x]); }
  }

  lemma TracesKept(s: Store, s': Store)
    requires Shape(s) && Shape(s') && SameNodes(s.nodes, s'.nodes) && s.recs == s'.recs
    ensures TracesOf(s) == TracesOf(s')
  {
    forall a | a in s.recs ensures TracesOf(s)[a] == TracesOf(s')[a] { ChainFromKept(s, s', s.recs[a]); }
  }

  lemma PushBooks(s: Store, me: nat, text: string)
    requires Safe(s)
    ensures Shape(Push(s, me, text)) && BooksOf(Push(s, me, text)) == Keep(BooksOf(s), PushInfo(me, text))
  {
    var s' := Push(s, me, text);
    ApplyKeepsNodes(s, PushInfo(me, text));
    TracesKept(s, s');
    StackSet(s, s', me, s.serial);
    NewChain(s, s', s.serial, Top(s, me));
  }

  /** A node's chain is its text before the chain of its tail, wherever that is read. */
  lemma NewChain(s: Store, s': Store, p: nat, next: Option<nat>)
    requires Shape(s) && Shape(s') && SameNodes(s.nodes, s'.nodes) && p in s'.nodes && s'.nodes[p].next == next
    requires next.Some? ==> next.value in s.nodes
    ensures Chain(s'.nodes, p) == [s'.nodes[p].text] + ChainFrom(s.nodes, next)
  {
    if next.Some? {
      assert NextOf(s'.nodes, p, next.value);
      ChainKept(s.nodes, s'.nodes, next.value);
    }
  }

  lemma PoppedTops(s: Store, me: nat)
    requires Shape(s) && me in s.tops
    ensures var next := s.nodes[s.tops[me]].next;
            && Pop(s, me).recs == s.recs
            && Pop(s, me).tops == if next.None? then s.tops - {me} else s.tops[me := next.value]
  {
    var next := s.nodes[s.tops[me]].next;
    if next.Some? { assert NextOf(s.nodes, s.tops[me], next.value); }
  }

  lemma PopBooks(s: Store, me: nat)
    requires Safe(s)
    ensures Shape(Pop(s, me)) && BooksOf(Pop(s, me)) == Keep(BooksOf(s), PopInfo(me))
  {
    ApplyKeepsNodes(s, PopInfo(me));
    if me in s.tops {
      PoppedTops(s, me);
      TracesKept(s, Pop(s, me));
      PoppedStack(s, Pop(s, me), me);
    }
  }

  lemma PoppedStack(s: Store, s': Store, me: nat)
    requires Shape(s) && Shape(s') && SameNodes(s.nodes, s'.nodes) && me in s.tops
    requires var next := s.nodes[s.tops[me]].next;
             s'.tops == if next.None? then s.tops - {me} else s.tops[me := next.value]
    ensures StacksOf(s') == WithStack(BooksOf(s), me, StacksOf(s)[me][1..]).stacks
  {
    var next := s.nodes[s.tops[me]].next;
    NewChain(s, s, s.tops[me], next);
    assert StacksOf(s)[me][1..] == ChainFrom(s.nodes, next);
    if next.None? {
      StackGone(s, s', me);
    } else {
      assert s'.tops[me] == next.value;
      StackSet(s, s', me, next.value);
      ChainFromKept(s, s', next);
    }
  }

  lemma MallocBooks(s: Store, me: nat, a: nat)
    requires Safe(s)
    ensures Shape(Track(s, me, a)) && BooksOf(Track(s, me, a)) == Keep(BooksOf(s), Malloc(me, a))
  {
    var s' := Track(s, me, a);
    ApplyKeepsNodes(s, Malloc(me, a));
    StacksKept(s, s');
    TraceSet(s, s', a, Top(s, me));
  }

  lemma FreeBooks(s: Store, a: nat)
    requires Safe(s)
    ensures Shape(Untrack(s, a)) && BooksOf(Untrack(s, a)) == Keep(BooksOf(s), Free(a))
  {
    var s' := Untrack(s, a);
    ApplyKeepsNodes(s, Free(a));
    SafeIsBalanced(s);
    UntrackKeeps(s, Extras(s), a);
    StacksKept(s, s');
    TraceGone(s, s', a);
  }

  lemma ReallocBooks(s: Store, a: nat, b: nat)
    requires Safe(s)
    ensures Shape(Retrack(s, a, b)) && BooksOf(Retrack(s, a, b)) == Keep(BooksOf(s), Realloc(a, b))
  {
    var s' := Retrack(s, a, b);
    ApplyKeepsNodes(s, Realloc(a, b));
    if a in s.recs {
      StacksKept(s, s');
      var mid := s.(recs := s.recs - {a});
      TraceGone(s, mid, a);
      TraceSet(mid, s', b, s.recs[a]);
    }
  }

  lemma ApplyBooks(s: Store, op: Op)
    requires Safe(s)
    ensures Shape(Apply(s, op)) && BooksOf(Apply(s, op)) == Keep(BooksOf(s), op)
  {
    match op {
      case PushInfo(me, text) => PushBooks(s, me, text);
      case PopInfo(me) => PopBooks(s, me);
      case Malloc(me, a) => MallocBooks(s, me, a);
      case Free(a) => FreeBooks(s, a);
      case Realloc(a, b) => ReallocBooks(s, a, b);
    }
  }

  /**
   * Over every run of pushes, pops, allocations, frees and reallocations, by any threads and with whatever
   * addresses, the shared nodes read as private copies.
   */
  lemma {:induction false} SharingNeverShows(s: Store, ops: seq<Op>)
    requires Safe(s)
    ensures BooksOf(Run(s, ops)) == KeepAll(BooksOf(s), ops)
    decreases |ops|
  {
    if ops != [] {
      ApplySafe(s, ops[0]);
      ApplyBooks(s, ops[0]);
      SharingNeverShows(Apply(s, ops[0]), ops[1..]);
    }
  }

  // ---- Live nodes are the reachable ones ----

  ghost predicate Reaches(nodes: Nodes, from: nat, p: nat)
    requires Linked(nodes)
    decreases from
  {
    from == p ||
    (from in nodes && nodes[from].next.Some? && (assert NextOf(nodes, from, nodes[from].next.value);
                                                 Reaches(nodes, nodes[from].next.value, p)))
  }

  ghost predicate IsRoot(s: Store, p: nat) { IsTop(s, p) || Holders(s.recs, p) != {} }

  /** With exact counts and no garbage, every live node is on some thread's stack or in some record's trace. */
  lemma {:induction false} LiveIsReachable(s: Store, p: nat) returns (root: nat)
    requires Exact(s) && NoGarbage(s) && p in s.nodes
    ensures IsRoot(s, root) && Reaches(s.nodes, root, p)
    decreases s.serial - p
  {
    assert NodeBalanced(s, NoExtra(), p);
    if IsRoot(s, p) {
      root := p;
    } else {
      assert Above(s.nodes, p) != {};
      var q :| q in Above(s.nodes, p);
      assert NextOf(s.nodes, q, p);
      root := LiveIsReachable(s, q);
      ReachesFurther(s.nodes, root, q, p);
    }
  }

  lemma {:induction false} ReachesFurther(nodes: Nodes, from: nat, q: nat, p: nat)
    requires Linked(nodes) && Reaches(nodes, from, q) && NextOf(nodes, q, p)
    ensures Reaches(nodes, from, p)
    decreases from
  {
    if from != q {
      assert NextOf(nodes, from, nodes[from].next.value);
      ReachesFurther(nodes, nodes[from].next.value, q, p);
    }
  }

  /** Nothing reachable has been freed. */
  lemma {:induction false} ReachableIsLive(s: Store, root: nat, p: nat)
    requires Safe(s) && IsRoot(s, root) && Reaches(s.nodes, root, p)
    ensures p in s.nodes
  {
    if Holders(s.recs, root) != {} {
      var a :| a in Holders(s.recs, root);
      assert root in s.nodes;
    }
    StaysLive(s.nodes, root, p);
  }

  lemma {:induction false} StaysLive(nodes: Nodes, from: nat, p: nat)
    requires Linked(nodes) && from in nodes && Reaches(nodes, from, p)
    ensures p in nodes
    decreases from
  {
    if from != p {
      assert NextOf(nodes, from, nodes[from].next.value);
      StaysLive(nodes, nodes[from].next.value, p);
    }
  }
}
