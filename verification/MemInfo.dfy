/**
 * The debug allocator's info stacks (mem_dbg.c): every thread pushes and pops strings, every tracked
 * address remembers the stack of the thread that allocated it, and the two share reference-counted
 * APP_INFO nodes. Nodes are named by the serial number of their allocation, so a pointer to a freed
 * node is never mistaken for one to a node that reuses its memory.
 */
module MemInfo {
  import opened Wrappers

  const NULL: nat := 0

  /** The fields of APP_INFO that are written once; the count is kept beside them. */
  datatype Node = Node(thread: nat, text: string, next: Option<nat>)

  type Nodes = map<nat, Node>

  /** The live nodes and their counts, amih (the top of each thread's stack), mh (each tracked address's info). */
  datatype Store = Store(
    nodes: Nodes,
    references: map<nat, int>,
    tops: map<nat, nat>,
    recs: map<nat, Option<nat>>,
    serial: nat)

  // ---- What refers to a node ----

  ghost predicate NextOf(nodes: Nodes, p: nat, q: nat) { p in nodes && nodes[p].next == Some(q) }

  /** A node's tail is older, live, and of the same thread. */
  ghost predicate Linked(nodes: Nodes) {
    forall p, q :: NextOf(nodes, p, q) ==> q < p && q in nodes && nodes[q].thread == nodes[p].thread
  }

  /** No pointer dangles, and a stack holds its own thread's nodes only. */
  ghost predicate Shape(s: Store) {
    && Linked(s.nodes)
    && s.references.Keys == s.nodes.Keys
    && (forall p :: p in s.nodes ==> p < s.serial)
    && (forall t :: t in s.tops ==> s.tops[t] in s.nodes && s.nodes[s.tops[t]].thread == t)
    && (forall a :: a in s.recs && s.recs[a].Some? ==> s.recs[a].value in s.nodes)
  }

  ghost function Above(nodes: Nodes, p: nat): set<nat> { set q | q in nodes && NextOf(nodes, q, p) }

  ghost function Holders(recs: map<nat, Option<nat>>, p: nat): set<nat> { set a | a in recs && recs[a] == Some(p) }

  function Top(s: Store, me: nat): Option<nat> { if me in s.tops then Some(s.tops[me]) else None }

  ghost predicate IsTop(s: Store, p: nat) { p in s.nodes && Top(s, s.nodes[p].thread) == Some(p) }

  /** How many pointers lead to a node. */
  ghost function Count(s: Store, p: nat): nat {
    (if IsTop(s, p) then 1 else 0) + |Above(s.nodes, p)| + |Holders(s.recs, p)|
  }

  /** What each node's count has on top of the pointers to it. */
  type Extra = nat -> int

  function NoExtra(): Extra { _ => 0 }

  function Plus(e: Extra, p: nat): Extra { (x: nat) => if x == p then e(x) + 1 else e(x) }

  ghost predicate NodeBalanced(s: Store, e: Extra, p: nat) {
    if p in s.references then s.references[p] == Count(s, p) + e(p) && e(p) >= 0 else e(p) == 0
  }

  /** Counts are never below the number of pointers, and exceed it by `e`. */
  ghost predicate Balanced(s: Store, e: Extra) {
    forall p :: NodeBalanced(s, e, p)
  }

  /** No node can be freed while something refers to it. */
  ghost predicate Safe(s: Store) {
    Shape(s) && forall p :: p in s.references ==> s.references[p] >= Count(s, p)
  }

  /** Counts are the numbers of pointers. */
  ghost predicate Exact(s: Store) {
    Shape(s) && Balanced(s, NoExtra())
  }

  /** Every node whose count is zero has been freed. */
  ghost predicate NoGarbage(s: Store) {
    forall p :: p in s.references ==> 0 < s.references[p]
  }

  // ---- The operations ----

  function Bump(references: map<nat, int>, p: Option<nat>, delta: int): map<nat, int>
    requires p.Some? ==> p.value in references
  {
    if p.None? then references else references[p.value := references[p.value] + delta]
  }

  function Drop(s: Store, p: nat): Store {
    s.(nodes := s.nodes - {p}, references := s.references - {p})
  }

  /** app_info_free */
  ghost function Release(s: Store, p: nat): Store
    requires Linked(s.nodes) && s.references.Keys == s.nodes.Keys && p in s.nodes
    decreases p
  {
    var s1 := s.(references := Bump(s.references, Some(p), -1));
    if s1.references[p] > 0 then s1
    else Drop(if s.nodes[p].next.None? then s1
              else assert NextOf(s.nodes, p, s.nodes[p].next.value); Release(s1, s.nodes[p].next.value), p)
  }

  function Push(s: Store, me: nat, text: string): Store {
    Store(s.nodes[s.serial := Node(me, text, Top(s, me))], s.references[s.serial := 1], s.tops[me := s.serial],
          s.recs, s.serial + 1)
  }

  /** The node below becomes the top before the old top gives up its place. */
  ghost function Moved(s: Store, me: nat): Store
    requires Shape(s) && me in s.tops
  {
    var next := s.nodes[s.tops[me]].next;
    assert next.Some? ==> NextOf(s.nodes, s.tops[me], next.value);
    s.(references := Bump(s.references, next, 1),
       tops := if next.None? then s.tops - {me} else (s.tops - {me})[s.nodes[next.value].thread := next.value])
  }

  /** The old top goes if nothing else uses it; its tail then has one user less. */
  ghost function Retired(s: Store, top: nat): Store
    requires Shape(s) && top in s.nodes
  {
    var next := s.nodes[top].next;
    assert next.Some? ==> NextOf(s.nodes, top, next.value);
    var left := s.(references := Bump(s.references, Some(top), -1));
    if left.references[top] > 0 then left
    else Drop(left.(references := Bump(left.references, next, -1)), top)
  }

  lemma MovedShape(s: Store, me: nat)
    requires Shape(s) && me in s.tops
    ensures Shape(Moved(s, me))
  {
    var next := s.nodes[s.tops[me]].next;
    assert next.Some? ==> NextOf(s.nodes, s.tops[me], next.value);
  }

  /** pop_info */
  ghost function Pop(s: Store, me: nat): Store
    requires Shape(s)
  {
    if me !in s.tops then s
    else MovedShape(s, me); Retired(Moved(s, me), s.tops[me])
  }

  /** CRYPTO_dbg_malloc after the allocation; a record that was there is dropped. */
  ghost function Track(s: Store, me: nat, a: nat): Store
    requires Shape(s)
  {
    s.(references := Bump(Bump(s.references, Top(s, me), 1), if a in s.recs then s.recs[a] else None, -1),
       recs := s.recs[a := Top(s, me)])
  }

  /** CRYPTO_dbg_free */
  ghost function Untrack(s: Store, a: nat): Store
    requires Shape(s)
  {
    if a !in s.recs then s
    else
      var s1 := s.(recs := s.recs - {a});
      if s.recs[a].None? then s1 else Release(s1, s.recs[a].value)
  }

  /** CRYPTO_dbg_realloc with two real addresses */
  function Retrack(s: Store, a: nat, b: nat): Store {
    if a !in s.recs then s else s.(recs := (s.recs - {a})[b := s.recs[a]])
  }

  // ---- Reference counts ----

  lemma AboveRemoved(nodes: Nodes, gone: nat, p: nat)
    requires gone in nodes
    ensures |Above(nodes - {gone}, p)| == |Above(nodes, p)| - if NextOf(nodes, gone, p) then 1 else 0
  {
    assert Above(nodes - {gone}, p) == Above(nodes, p) - {gone};
  }

  lemma AboveAdded(nodes: Nodes, new_: nat, node: Node, p: nat)
    requires new_ !in nodes
    ensures |Above(nodes[new_ := node], p)| == |Above(nodes, p)| + if node.next == Some(p) then 1 else 0
  {
    assert Above(nodes[new_ := node], p) == Above(nodes, p) + if node.next == Some(p) then {new_} else {};
  }

  lemma HoldersSet(recs: map<nat, Option<nat>>, a: nat, info: Option<nat>, p: nat)
    ensures |Holders(recs[a := info], p)| == |Holders(recs, p)| + (if info == Some(p) then 1 else 0)
                                             - if a in recs && recs[a] == Some(p) then 1 else 0
  {
    var rest := Holders(recs, p) - {a};
    if info == Some(p) {
      assert Holders(recs[a := info], p) == rest + {a};
    } else {
      assert Holders(recs[a := info], p) == rest;
    }
  }

  lemma HoldersRemoved(recs: map<nat, Option<nat>>, a: nat, p: nat)
    ensures |Holders(recs - {a}, p)| == |Holders(recs, p)| - if a in recs && recs[a] == Some(p) then 1 else 0
  {
    assert Holders(recs - {a}, p) == Holders(recs, p) - {a};
  }

  lemma NothingRefers(s: Store, p: nat)
    requires Shape(s) && p in s.nodes && Count(s, p) == 0
    ensures forall t :: t in s.tops ==> s.tops[t] != p
    ensures forall q :: !NextOf(s.nodes, q, p)
    ensures forall a :: a in s.recs ==> s.recs[a] != Some(p)
  {
    assert Above(s.nodes, p) == {} && Holders(s.recs, p) == {};
    forall q ensures !NextOf(s.nodes, q, p) { assert q !in Above(s.nodes, p); }
    forall a | a in s.recs ensures s.recs[a] != Some(p) { assert a !in Holders(s.recs, p); }
  }

  // ---- Releasing a reference ----

  /** Releasing never looks at nodes above, so a node with no users may go first. */
  lemma {:induction false} ReleaseSwap(s: Store, p: nat, q: nat)
    requires Linked(s.nodes) && Linked(s.nodes - {p}) && s.references.Keys == s.nodes.Keys && q in s.nodes && q < p
    ensures Drop(Release(s, q), p) == Release(Drop(s, p), q)
    decreases q
  {
    var s1 := s.(references := Bump(s.references, Some(q), -1));
    assert Bump(s.references - {p}, Some(q), -1) == s1.references - {p};
    if s1.references[q] <= 0 {
      var next := s.nodes[q].next;
      if next.Some? {
        assert NextOf(s.nodes, q, next.value);
        ReleaseSwap(s1, p, next.value);
        DropsCommute(Release(s1, next.value), p, q);
      } else {
        DropsCommute(s1, p, q);
      }
    }
  }

  lemma DropsCommute(s: Store, p: nat, q: nat)
    ensures Drop(Drop(s, p), q) == Drop(Drop(s, q), p)
  {
    var a, b := Drop(Drop(s, p), q), Drop(Drop(s, q), p);
    assert a.nodes == b.nodes && a.references == b.references;
  }

  /** Nodes may go, and those that stay keep their fields. */
  ghost predicate Shrinks(s: Store, s': Store) {
    forall p :: p in s'.nodes ==> p in s.nodes && s'.nodes[p] == s.nodes[p]
  }

  /** A node whose last reference goes makes room: its tail is then owed one. */
  lemma DropNode(s: Store, e: Extra, p: nat)
    requires Shape(s) && Balanced(s, Plus(e, p)) && p in s.nodes && s.references[p] <= 1 && e(p) >= 0
    ensures Shape(Drop(s, p))
    ensures Balanced(Drop(s, p), if s.nodes[p].next.Some? then Plus(e, s.nodes[p].next.value) else e)
    ensures s.nodes[p].next.Some? ==> s.nodes[p].next.value in Drop(s, p).nodes
  {
    assert NodeBalanced(s, Plus(e, p), p);
    NothingRefers(s, p);
    var s1 := Drop(s, p);
    var e1 := if s.nodes[p].next.Some? then Plus(e, s.nodes[p].next.value) else e;
    forall x ensures NodeBalanced(s1, e1, x) {
      assert NodeBalanced(s, Plus(e, p), x);
      AboveRemoved(s.nodes, p, x);
      if s.nodes[p].next.Some? { assert NextOf(s.nodes, p, s.nodes[p].next.value); }
    }
    DropShape(s, p);
  }

  lemma DropShape(s: Store, p: nat)
    requires Shape(s) && p in s.nodes
    requires forall t :: t in s.tops ==> s.tops[t] != p
    requires forall q :: !NextOf(s.nodes, q, p)
    requires forall a :: a in s.recs ==> s.recs[a] != Some(p)
    ensures Shape(Drop(s, p))
  {
    var s1 := Drop(s, p);
    forall x, y | NextOf(s1.nodes, x, y) ensures y < x && y in s1.nodes && s1.nodes[y].thread == s1.nodes[x].thread {
      assert NextOf(s.nodes, x, y);
    }
  }

  /** app_info_free gives up one reference and frees what that leaves unused; all else stays. */
  lemma {:induction false} ReleaseKeeps(s: Store, e: Extra, p: nat)
    requires Shape(s) && Balanced(s, Plus(e, p)) && p in s.nodes && e(p) >= 0
    ensures var s' := Release(s, p);
            && Shape(s') && Balanced(s', e) && Shrinks(s, s')
            && s'.tops == s.tops && s'.recs == s.recs && s'.serial == s.serial
    decreases p
  {
    var s1 := s.(references := Bump(s.references, Some(p), -1));
    if s1.references[p] > 0 {
      StillUsed(s, e, p);
    } else {
      DropNode(s, e, p);
      assert Drop(s1, p) == Drop(s, p) by { assert s1.references - {p} == s.references - {p}; }
      var next := s.nodes[p].next;
      if next.Some? {
        assert NextOf(s.nodes, p, next.value);
        ReleaseSwap(s1, p, next.value);
        assert NodeBalanced(s, Plus(e, p), next.value);
        ReleaseKeeps(Drop(s, p), e, next.value);
      }
    }
  }

  lemma StillUsed(s: Store, e: Extra, p: nat)
    requires Balanced(s, Plus(e, p)) && p in s.references && e(p) >= 0
    ensures Balanced(s.(references := Bump(s.references, Some(p), -1)), e)
  {
    var s1 := s.(references := Bump(s.references, Some(p), -1));
    forall x ensures NodeBalanced(s1, e, x) {
      assert NodeBalanced(s, Plus(e, p), x);
    }
  }

  /** Releasing frees every node whose count it brings to zero. */
  lemma {:induction false} ReleaseFrees(s: Store, p: nat)
    requires Linked(s.nodes) && s.references.Keys == s.nodes.Keys && p in s.nodes
    ensures forall x :: x in Release(s, p).references
                ==> Release(s, p).references[x] > 0 || (x != p && x in s.references && s.references[x] <= 0)
    decreases p
  {
    var s1 := s.(references := Bump(s.references, Some(p), -1));
    var next := s.nodes[p].next;
    if s1.references[p] <= 0 && next.Some? {
      assert NextOf(s.nodes, p, next.value);
      ReleaseFrees(s1, next.value);
    }
  }

  // ---- What each operation keeps ----

  lemma PushKeeps(s: Store, e: Extra, me: nat, text: string)
    requires Shape(s) && Balanced(s, e)
    ensures Shape(Push(s, me, text)) && Balanced(Push(s, me, text), e)
    ensures NoGarbage(s) ==> NoGarbage(Push(s, me, text))
  {
    var s' := Push(s, me, text);
    PushShape(s, me, text);
    forall x ensures NodeBalanced(s', e, x) {
      assert NodeBalanced(s, e, x);
      AboveAdded(s.nodes, s.serial, s'.nodes[s.serial], x);
      if x == s.serial { Unused(s, x); }
    }
  }

  lemma PushShape(s: Store, me: nat, text: string)
    requires Shape(s)
    ensures Shape(Push(s, me, text))
  {
    var s' := Push(s, me, text);
    forall x, y | NextOf(s'.nodes, x, y) ensures y < x && y in s'.nodes && s'.nodes[y].thread == s'.nodes[x].thread {
      assert x == s.serial || NextOf(s.nodes, x, y);
    }
  }

  lemma Unused(s: Store, p: nat)
    requires Shape(s) && p !in s.nodes
    ensures Count(s, p) == 0
  {
    assert Above(s.nodes, p) == {} by {
      forall q ensures q !in Above(s.nodes, p) { assert NextOf(s.nodes, q, p) ==> p in s.nodes; }
    }
    assert Holders(s.recs, p) == {};
  }

  lemma MovedKeeps(s: Store, e: Extra, me: nat)
    requires Shape(s) && Balanced(s, e) && me in s.tops
    ensures Shape(Moved(s, me)) && Balanced(Moved(s, me), Plus(e, s.tops[me]))
    ensures s.nodes[s.tops[me]].next.Some? ==> Moved(s, me).references[s.nodes[s.tops[me]].next.value] >= 2
  {
    var s', top := Moved(s, me), s.tops[me];
    var next := s.nodes[top].next;
    if next.Some? {
      assert NextOf(s.nodes, top, next.value);
      assert top in Above(s.nodes, next.value);
      assert NodeBalanced(s, e, next.value);
    }
    forall x ensures NodeBalanced(s', Plus(e, top), x) {
      assert NodeBalanced(s, e, x);
    }
  }

  lemma RetiredForm(s: Store, top: nat)
    requires Shape(s) && top in s.nodes && s.references[top] <= 1
    ensures var d, next := Drop(s, top), s.nodes[top].next;
            && (next.Some? ==> next.value in d.references)
            && Retired(s, top) == d.(references := Bump(d.references, next, -1))
  {
    var d, next := Drop(s, top), s.nodes[top].next;
    assert next.Some? ==> NextOf(s.nodes, top, next.value);
    assert Retired(s, top).references == Bump(d.references, next, -1);
  }

  lemma RetiredKeeps(s: Store, e: Extra, top: nat)
    requires Shape(s) && Balanced(s, Plus(e, top)) && top in s.nodes && e(top) >= 0
    ensures Shape(Retired(s, top)) && Balanced(Retired(s, top), e) && Shrinks(s, Retired(s, top))
  {
    if s.references[top] > 1 {
      StillUsed(s, e, top);
    } else {
      RetiredForm(s, top);
      DropNode(s, e, top);
      var next := s.nodes[top].next;
      if next.Some? {
        assert NodeBalanced(s, Plus(e, top), next.value);
        StillUsed(Drop(s, top), e, next.value);
      }
    }
  }

  lemma PopKeeps(s: Store, e: Extra, me: nat)
    requires Shape(s) && Balanced(s, e)
    ensures Shape(Pop(s, me)) && Balanced(Pop(s, me), e) && Shrinks(s, Pop(s, me))
  {
    if me in s.tops {
      MovedKeeps(s, e, me);
      assert NodeBalanced(s, e, s.tops[me]);
      RetiredKeeps(Moved(s, me), e, s.tops[me]);
    }
  }

  lemma PopFrees(s: Store, e: Extra, me: nat)
    requires Shape(s) && Balanced(s, e) && NoGarbage(s)
    ensures NoGarbage(Pop(s, me))
  {
    if me in s.tops { MovedKeeps(s, e, me); }
  }

  lemma TrackKeeps(s: Store, e: Extra, me: nat, a: nat)
    requires Shape(s) && Balanced(s, e)
    ensures Shape(Track(s, me, a)) && Balanced(Track(s, me, a), e) && Track(s, me, a).nodes == s.nodes
  {
    var s' := Track(s, me, a);
    forall x ensures NodeBalanced(s', e, x) {
      assert NodeBalanced(s, e, x);
      HoldersSet(s.recs, a, Top(s, me), x);
    }
  }

  lemma UntrackKeeps(s: Store, e: Extra, a: nat)
    requires Shape(s) && Balanced(s, e)
    ensures Shape(Untrack(s, a)) && Balanced(Untrack(s, a), e) && Shrinks(s, Untrack(s, a))
    ensures Untrack(s, a).tops == s.tops && Untrack(s, a).recs == s.recs - {a}
    ensures NoGarbage(s) ==> NoGarbage(Untrack(s, a))
  {
    if a in s.recs {
      var s1 := s.(recs := s.recs - {a});
      var e1 := if s.recs[a].Some? then Plus(e, s.recs[a].value) else e;
      forall x ensures NodeBalanced(s1, e1, x) {
        assert NodeBalanced(s, e, x);
        HoldersRemoved(s.recs, a, x);
      }
      if s.recs[a].Some? {
        assert NodeBalanced(s, e, s.recs[a].value);
        ReleaseKeeps(s1, e, s.recs[a].value);
        ReleaseFrees(s1, s.recs[a].value);
      }
    }
  }

  /** The record that a reallocation overwrites, if any. */
  ghost function Overwritten(s: Store, a: nat, b: nat): Option<nat> {
    if a in s.recs && b in s.recs && a != b then s.recs[b] else None
  }

  /** An overwritten record never gives its reference back. */
  lemma RetrackKeeps(s: Store, e: Extra, a: nat, b: nat)
    requires Shape(s) && Balanced(s, e)
    ensures var lost := Overwritten(s, a, b);
            Shape(Retrack(s, a, b)) && Balanced(Retrack(s, a, b), if lost.Some? then Plus(e, lost.value) else e)
  {
    if a in s.recs {
      var s' := Retrack(s, a, b);
      var e1 := if Overwritten(s, a, b).Some? then Plus(e, Overwritten(s, a, b).value) else e;
      forall x ensures NodeBalanced(s', e1, x) {
        assert NodeBalanced(s, e, x);
        HoldersRemoved(s.recs, a, x);
        HoldersSet(s.recs - {a}, b, s.recs[a], x);
      }
    }
  }
}
