/**
 * The functions of mem_dbg.c that keep the info stacks and the table of tracked addresses, over the
 * globals they share. `on` is what is_MemCheck_on tells the calling thread; each body below runs between
 * MemCheck_off and MemCheck_on, which hold MALLOC2. Allocations succeed.
 */
module MemDebugger {
  import opened Wrappers
  import opened MemInfo
  import opened MemRuns
  import opened MemBooks

  ghost predicate Tidy(s: Store) { Exact(s) && NoGarbage(s) }

  lemma PopStep(s: Store, me: nat)
    requires Safe(s)
    ensures Safe(Pop(s, me)) && BooksOf(Pop(s, me)) == Keep(BooksOf(s), PopInfo(me))
    ensures me in s.tops <==> StackOf(BooksOf(s), me) != []
  {
    ApplySafe(s, PopInfo(me));
    PopBooks(s, me);
  }

  lemma StackAsIs(b: Books, me: nat)
    requires me in b.stacks ==> b.stacks[me] != []
    ensures WithStack(b, me, StackOf(b, me)) == b
  {
    assert b.stacks == WithStack(b, me, StackOf(b, me)).stacks;
  }

  lemma StackTwice(b: Books, me: nat, first: seq<string>, second: seq<string>)
    ensures WithStack(WithStack(b, me, first), me, second) == WithStack(b, me, second)
    ensures StackOf(WithStack(b, me, first), me) == first
  {
    assert WithStack(WithStack(b, me, first), me, second).stacks == WithStack(b, me, second).stacks;
  }

  ghost function Depth(s: Store, me: nat): nat
    requires Shape(s)
  {
    |StackOf(BooksOf(s), me)|
  }

  /** `n` times pop_info */
  function Pops(me: nat, n: nat): (ops: seq<Op>)
    ensures |ops| == n && forall i :: 0 <= i < n ==> ops[i] == PopInfo(me)
  {
    seq(n, _ => PopInfo(me))
  }

  ghost function PopTimes(s: Store, me: nat, n: nat): Store
    requires Safe(s)
  {
    Run(s, Pops(me, n))
  }

  lemma PopTimesCons(s: Store, me: nat, n: nat)
    requires Safe(s) && n > 0
    ensures Safe(Apply(s, PopInfo(me))) && PopTimes(s, me, n) == PopTimes(Apply(s, PopInfo(me)), me, n - 1)
  {
    ApplySafe(s, PopInfo(me));
    assert Pops(me, n)[1..] == Pops(me, n - 1);
  }

  /** One pop on the way to an empty stack; on an empty one it does nothing. */
  lemma PopOnce(s: Store, me: nat, n: nat)
    requires Safe(s) && n == Depth(s, me)
    ensures Safe(Pop(s, me)) && (me in s.tops <==> n > 0)
    ensures Depth(Pop(s, me), me) == if n > 0 then n - 1 else 0
    ensures PopTimes(Pop(s, me), me, if n > 0 then n - 1 else 0) == PopTimes(s, me, n)
  {
    PopStep(s, me);
    if n > 0 { PopTimesCons(s, me, n); }
  }

  lemma {:induction false} PopsEmpty(b: Books, me: nat, n: nat)
    requires n <= |StackOf(b, me)| && (me in b.stacks ==> b.stacks[me] != [])
    ensures KeepAll(b, Pops(me, n)) == WithStack(b, me, StackOf(b, me)[n..])
    decreases n
  {
    if n == 0 {
      StackAsIs(b, me);
    } else {
      var stack := StackOf(b, me);
      assert Pops(me, n)[1..] == Pops(me, n - 1);
      var less := WithStack(b, me, stack[1..]);
      assert Keep(b, PopInfo(me)) == less;
      PopsEmpty(less, me, n - 1);
      StackTwice(b, me, stack[1..], stack[n..]);
      assert StackOf(less, me) == stack[1..] && stack[1..][n - 1..] == stack[n..];
    }
  }

  lemma {:induction false} WithoutAllocations(s: Store, ops: seq<Op>)
    requires Safe(s) && forall i :: 0 <= i < |ops| ==> !ops[i].Malloc?
    ensures NeverStrands(s, ops)
    decreases |ops|
  {
    if ops != [] {
      ApplySafe(s, ops[0]);
      WithoutAllocations(Apply(s, ops[0]), ops[1..]);
    }
  }

  /** As many pops as the stack is deep empty it, and nothing else. */
  lemma PopTimesBooks(s: Store, me: nat)
    requires Safe(s)
    ensures BooksOf(PopTimes(s, me, Depth(s, me))) == WithStack(BooksOf(s), me, [])
    ensures Tidy(s) ==> Tidy(PopTimes(s, me, Depth(s, me)))
  {
    var ops := Pops(me, Depth(s, me));
    SharingNeverShows(s, ops);
    PopsEmpty(BooksOf(s), me, Depth(s, me));
    if Tidy(s) {
      WithoutReallocations(s, ops);
      WithoutAllocations(s, ops);
      NoGarbageIff(s, ops);
    }
  }

  class MemDebug {
    var nodes: Nodes                      // the live APP_INFO nodes
    var references: map<nat, int>
    var tops: map<nat, nat>               // amih
    var recs: map<nat, Option<nat>>       // mh
    var serial: nat

    ghost function View(): Store
      reads this
    {
      Store(nodes, references, tops, recs, serial)
    }

    constructor ()
      ensures View() == EMPTY && Tidy(View())
    {
      nodes, references, tops, recs, serial := map[], map[], map[], map[], 0;
      new;
      forall p ensures NodeBalanced(EMPTY, NoExtra(), p) { }
    }

    /** app_info_free: the nodes are a chain of ever older ones, so the recursion ends. */
    method AppInfoFree(p: nat)
      requires Linked(nodes) && references.Keys == nodes.Keys && p in nodes
      modifies this`nodes, this`references
      ensures View() == Release(old(View()), p)
      decreases p
    {
      references := references[p := references[p] - 1];
      if references[p] <= 0 {
        var next := nodes[p].next;
        if next.Some? {
          assert NextOf(nodes, p, next.value);
          AppInfoFree(next.value);
        }
        nodes, references := nodes - {p}, references - {p};
      }
    }

    /** The node below becomes the top. */
    method MoveDown(me: nat)
      requires Shape(View()) && me in tops
      modifies this`references, this`tops
      ensures View() == Moved(old(View()), me)
    {
      var next := nodes[tops[me]].next;
      assert next.Some? ==> NextOf(nodes, tops[me], next.value);
      tops := tops - {me};
      if next.Some? {
        references := references[next.value := references[next.value] + 1];
        tops := tops[nodes[next.value].thread := next.value];
      }
    }

    /** The old top gives up its place, and goes if nothing else uses it. */
    method Retire(top: nat)
      requires Shape(View()) && top in nodes
      modifies this`nodes, this`references
      ensures View() == Retired(old(View()), top)
    {
      var next := nodes[top].next;
      assert next.Some? ==> NextOf(nodes, top, next.value);
      references := references[top := references[top] - 1];
      if references[top] <= 0 {
        if next.Some? { references := references[next.value := references[next.value] - 1]; }
        nodes, references := nodes - {top}, references - {top};
      }
    }

    /** pop_info */
    method PopTop(me: nat) returns (popped: bool)
      requires Shape(View())
      modifies this`nodes, this`references, this`tops
      ensures View() == Pop(old(View()), me)
      ensures popped <==> me in old(tops)
    {
      popped := me in tops;
      if popped {
        var top := tops[me];
        MovedShape(View(), me);
        MoveDown(me);
        Retire(top);
      }
    }

    /** CRYPTO_push_info_; its result is always zero. */
    method PushInfo(me: nat, text: string, on: bool) returns (ret: int)
      requires Shape(View())
      modifies this
      ensures View() == if on then Push(old(View()), me, text) else old(View())
      ensures ret == 0
    {
      ret := 0;
      if on {
        var ami := serial;
        serial := serial + 1;
        var amim := if me in tops then Some(tops[me]) else None;
        tops := tops[me := ami];
        nodes, references := nodes[ami := Node(me, text, amim)], references[ami := 1];
      }
    }

    /** CRYPTO_pop_info */
    method PopInfo(me: nat, on: bool) returns (popped: bool)
      requires Shape(View())
      modifies this
      ensures View() == if on then Pop(old(View()), me) else old(View())
      ensures popped <==> on && me in old(tops)
    {
      popped := false;
      if on { popped := PopTop(me); }
    }

    /** pop_info, as the loop of CRYPTO_remove_all_info sees it: `goal` is what `n` more pops lead to. */
    method PopNext(me: nat, ghost goal: Store, ghost n: nat) returns (popped: bool)
      requires Safe(View()) && n == Depth(View(), me) && goal == PopTimes(View(), me, n)
      modifies this
      ensures popped <==> n > 0
      ensures Safe(View())
      ensures var left := if popped then n - 1 else 0;
              left == Depth(View(), me) && goal == PopTimes(View(), me, left)
    {
      PopOnce(View(), me, n);
      popped := PopTop(me);
    }

    /** The loop of CRYPTO_remove_all_info */
    method PopAll(me: nat) returns (count: nat)
      requires Safe(View())
      modifies this
      ensures count == Depth(old(View()), me) && View() == PopTimes(old(View()), me, count)
    {
      count := 0;
      ghost var n := Depth(View(), me);
      ghost var left, goal := n, PopTimes(View(), me, n);
      var popped := PopNext(me, goal, left);
      if popped { left := left - 1; }
      while popped
        invariant Safe(View()) && left == Depth(View(), me) && goal == PopTimes(View(), me, left)
        invariant if popped then count + 1 + left == n else count == n && left == 0
        decreases n - count
      {
        count := count + 1;
        popped := PopNext(me, goal, left);
        if popped { left := left - 1; }
      }
    }

    /** CRYPTO_remove_all_info: ends, having popped the thread's whole stack and nothing else. */
    method RemoveAllInfo(me: nat, on: bool) returns (count: nat)
      requires Safe(View())
      modifies this
      ensures Safe(View())
      ensures on ==> BooksOf(View()) == WithStack(old(BooksOf(View())), me, [])
      ensures on ==> count == |StackOf(old(BooksOf(View())), me)|
      ensures !on ==> View() == old(View()) && count == 0
      ensures old(Tidy(View())) ==> Tidy(View())
    {
      count := 0;
      if on {
        PopTimesBooks(View(), me);
        count := PopAll(me);
      }
    }

    /** CRYPTO_dbg_malloc, called after the allocation */
    method DbgMalloc(me: nat, addr: nat, on: bool)
      requires Shape(View())
      modifies this
      ensures View() == if addr != NULL && on then Track(old(View()), me, addr) else old(View())
    {
      if addr == NULL { return; }
      if on {
        var info: Option<nat> := None;
        if me in tops {
          info := Some(tops[me]);
          references := references[tops[me] := references[tops[me]] + 1];
        }
        var mm := if addr in recs then recs[addr] else None;
        recs := recs[addr := info];
        if mm.Some? { references := references[mm.value := references[mm.value] - 1]; }
      }
    }

    /** CRYPTO_dbg_free, called before the release */
    method DbgFree(addr: nat, on: bool)
      requires Shape(View())
      modifies this
      ensures View() == if addr != NULL && on then Untrack(old(View()), addr) else old(View())
    {
      if addr == NULL { return; }
      if on && addr in recs {
        var info := recs[addr];
        recs := recs - {addr};
        if info.Some? { AppInfoFree(info.value); }
      }
    }

    /** CRYPTO_dbg_realloc, called after the reallocation */
    method DbgRealloc(me: nat, addr1: nat, addr2: nat, on: bool)
      requires Shape(View())
      modifies this
      ensures View() ==
              if addr2 == NULL || !on then old(View())
              else if addr1 == NULL then Track(old(View()), me, addr2)
              else Retrack(old(View()), addr1, addr2)
    {
      if addr2 == NULL { return; }
      if addr1 == NULL {
        DbgMalloc(me, addr2, on);
      } else if on && addr1 in recs {
        var m := recs[addr1];
        recs := recs - {addr1};
        recs := recs[addr2 := m];
      }
    }
  }
}
