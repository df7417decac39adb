/**
 * Runs of any operations of any threads on the allocator's books: when the reference counts stay exact, and
 * when every node goes as its count reaches zero. The operations hold MALLOC2, so they follow one another.
 */
module MemRuns {
  import opened Wrappers
  import opened MemInfo

  datatype Op =
    | PushInfo(me: nat, text: string)
    | PopInfo(me: nat)
    | Malloc(me: nat, addr: nat)
    | Free(addr: nat)
    | Realloc(addr: nat, to: nat)

  ghost function Apply(s: Store, op: Op): Store
    requires Shape(s)
  {
    match op
    case PushInfo(me, text) => Push(s, me, text)
    case PopInfo(me) => Pop(s, me)
    case Malloc(me, a) => Track(s, me, a)
    case Free(a) => Untrack(s, a)
    case Realloc(a, b) => Retrack(s, a, b)
  }

  ghost function Lost(s: Store, op: Op): Option<nat> {
    if op.Realloc? then Overwritten(s, op.addr, op.to) else None
  }

  ghost function Extras(s: Store): Extra {
    (x: nat) => if x in s.references then s.references[x] - Count(s, x) else 0
  }

  lemma SafeIsBalanced(s: Store)
    requires Safe(s)
    ensures Balanced(s, Extras(s))
  {
    forall p ensures NodeBalanced(s, Extras(s), p) {
      if p in s.references { assert s.references[p] >= Count(s, p); }
    }
  }

  lemma BalancedIsSafe(s: Store, e: Extra)
    requires Shape(s) && Balanced(s, e)
    ensures Safe(s)
    ensures Exact(s) <==> forall p :: e(p) == 0
  {
    forall p ensures p in s.references ==> s.references[p] >= Count(s, p) { assert NodeBalanced(s, e, p); }
    if Exact(s) {
      forall p ensures e(p) == 0 { assert NodeBalanced(s, e, p) && NodeBalanced(s, NoExtra(), p); }
    }
    if forall p :: e(p) == 0 {
      forall p ensures NodeBalanced(s, NoExtra(), p) { assert NodeBalanced(s, e, p); }
    }
  }

  lemma ApplyBalanced(s: Store, e: Extra, op: Op)
    requires Shape(s) && Balanced(s, e)
    ensures Shape(Apply(s, op))
    ensures Balanced(Apply(s, op), if Lost(s, op).Some? then Plus(e, Lost(s, op).value) else e)
  {
    match op {
      case PushInfo(me, text) => PushKeeps(s, e, me, text);
      case PopInfo(me) => PopKeeps(s, e, me);
      case Malloc(me, a) => TrackKeeps(s, e, me, a);
      case Free(a) => UntrackKeeps(s, e, a);
      case Realloc(a, b) => RetrackKeeps(s, e, a, b);
    }
  }

  /** Every operation is safe; it keeps counts exact exactly when it overwrites no record that has an info. */
  lemma ApplySafe(s: Store, op: Op)
    requires Safe(s)
    ensures Safe(Apply(s, op))
    ensures Exact(Apply(s, op)) <==> Exact(s) && Lost(s, op).None?
  {
    SafeIsBalanced(s);
    BalancedThrough(s, Extras(s), op);
  }

  lemma BalancedThrough(s: Store, e: Extra, op: Op)
    requires Shape(s) && Balanced(s, e)
    ensures Safe(Apply(s, op))
    ensures Exact(Apply(s, op)) <==> Exact(s) && Lost(s, op).None?
  {
    ApplyBalanced(s, e, op);
    ExactThrough(s, Apply(s, op), e, Lost(s, op));
  }

  lemma ExactThrough(s: Store, s': Store, e: Extra, lost: Option<nat>)
    requires Shape(s) && Balanced(s, e)
    requires Shape(s') && Balanced(s', if lost.Some? then Plus(e, lost.value) else e)
    ensures Safe(s')
    ensures Exact(s') <==> Exact(s) && lost.None?
  {
    BalancedIsSafe(s, e);
    if lost.None? {
      BalancedIsSafe(s', e);
    } else {
      BalancedIsSafe(s', Plus(e, lost.value));
      assert NodeBalanced(s, e, lost.value);
      assert Plus(e, lost.value)(lost.value) > 0;
    }
  }

  ghost function Run(s: Store, ops: seq<Op>): (r: Store)
    requires Safe(s)
    ensures Safe(r)
    decreases |ops|
  {
    if ops == [] then s
    else ApplySafe(s, ops[0]); Run(Apply(s, ops[0]), ops[1..])
  }

  const EMPTY: Store := Store(map[], map[], map[], map[], 0)

  // ---- Exact counts ----

  /** No reallocation in the run moves a record over another one that has an info. */
  ghost predicate NeverLoses(s: Store, ops: seq<Op>)
    requires Safe(s)
    decreases |ops|
  {
    ops == [] ||
    (Lost(s, ops[0]).None? && (ApplySafe(s, ops[0]); NeverLoses(Apply(s, ops[0]), ops[1..])))
  }

  /** Over any run counts stay exact exactly when no record is lost to a reallocation. */
  lemma {:induction false} CountsExactIff(s: Store, ops: seq<Op>)
    requires Safe(s)
    ensures Exact(Run(s, ops)) <==> Exact(s) && NeverLoses(s, ops)
    decreases |ops|
  {
    if ops != [] {
      ApplySafe(s, ops[0]);
      CountsExactIff(Apply(s, ops[0]), ops[1..]);
    }
  }

  // ---- Freed when the count is zero ----

  /** An allocation recorded over a record that is its info's only user. */
  ghost predicate LeavesGarbage(s: Store, op: Op)
    requires Shape(s)
  {
    && op.Malloc? && op.addr in s.recs && s.recs[op.addr].Some?
    && s.references[s.recs[op.addr].value] == 1
  }

  ghost predicate IsGarbage(s: Store, p: nat) { p in s.references && s.references[p] <= 0 }

  lemma {:induction false} ReleaseSpares(s: Store, p: nat, x: nat)
    requires Linked(s.nodes) && s.references.Keys == s.nodes.Keys && p in s.nodes && x != p && x in s.references
    requires forall q :: !NextOf(s.nodes, q, x)
    ensures x in Release(s, p).references && Release(s, p).references[x] == s.references[x]
    decreases p
  {
    var s1 := s.(references := Bump(s.references, Some(p), -1));
    var next := s.nodes[p].next;
    if s1.references[p] <= 0 && next.Some? {
      assert NextOf(s.nodes, p, next.value);
      ReleaseSpares(s1, next.value, x);
    }
  }

  lemma PopSpares(s: Store, me: nat, p: nat)
    requires Shape(s) && me in s.tops && p in s.references && s.tops[me] != p
    requires forall q :: !NextOf(s.nodes, q, p)
    ensures p in Pop(s, me).references && Pop(s, me).references[p] == s.references[p]
  {
    var next := s.nodes[s.tops[me]].next;
    if next.Some? { assert NextOf(s.nodes, s.tops[me], next.value); }
  }

  lemma TrackSpares(s: Store, me: nat, a: nat, p: nat)
    requires Shape(s) && p in s.references && Top(s, me) != Some(p)
    requires a in s.recs ==> s.recs[a] != Some(p)
    ensures Track(s, me, a).references[p] == s.references[p]
  {
  }

  lemma GarbageStays(s: Store, op: Op, p: nat)
    requires Safe(s) && IsGarbage(s, p)
    ensures IsGarbage(Apply(s, op), p)
  {
    assert Count(s, p) == 0;
    NothingRefers(s, p);
    match op {
      case PushInfo(me, text) =>
      case PopInfo(me) => if me in s.tops { PopSpares(s, me, p); }
      case Malloc(me, a) => TrackSpares(s, me, a, p);
      case Free(a) =>
        if a in s.recs && s.recs[a].Some? { ReleaseSpares(s.(recs := s.recs - {a}), s.recs[a].value, p); }
      case Realloc(a, b) =>
    }
  }

  lemma ApplyFrees(s: Store, op: Op)
    requires Safe(s)
    ensures NoGarbage(Apply(s, op)) <==> NoGarbage(s) && !LeavesGarbage(s, op)
  {
    var s' := Apply(s, op);
    if !NoGarbage(s) {
      var p :| p in s.references && s.references[p] <= 0;
      GarbageStays(s, op, p);
    } else {
      SafeIsBalanced(s);
      match op {
        case PushInfo(me, text) => PushKeeps(s, Extras(s), me, text);
        case PopInfo(me) => PopFrees(s, Extras(s), me);
        case Malloc(me, a) => TrackFrees(s, me, a);
        case Free(a) => UntrackKeeps(s, Extras(s), a);
        case Realloc(a, b) =>
      }
    }
  }

  lemma TrackFrees(s: Store, me: nat, a: nat)
    requires Safe(s) && NoGarbage(s)
    ensures NoGarbage(Track(s, me, a)) <==> !LeavesGarbage(s, Malloc(me, a))
  {
    if LeavesGarbage(s, Malloc(me, a)) {
      var p := s.recs[a].value;
      assert a in Holders(s.recs, p);
      assert !IsTop(s, p);
      assert Track(s, me, a).references[p] == 0;
    }
  }

  /** No allocation in the run is recorded at a tracked address whose record is its info's last user. */
  ghost predicate NeverStrands(s: Store, ops: seq<Op>)
    requires Safe(s)
    decreases |ops|
  {
    ops == [] ||
    (!LeavesGarbage(s, ops[0]) && (ApplySafe(s, ops[0]); NeverStrands(Apply(s, ops[0]), ops[1..])))
  }

  lemma {:induction false} NoGarbageIff(s: Store, ops: seq<Op>)
    requires Safe(s)
    ensures NoGarbage(Run(s, ops)) <==> NoGarbage(s) && NeverStrands(s, ops)
    decreases |ops|
  {
    if ops != [] {
      ApplySafe(s, ops[0]);
      ApplyFrees(s, ops[0]);
      NoGarbageIff(Apply(s, ops[0]), ops[1..]);
    }
  }

  lemma {:induction false} RunOneMore(s: Store, ops: seq<Op>, op: Op)
    requires Safe(s)
    ensures Run(s, ops + [op]) == Apply(Run(s, ops), op)
    decreases |ops|
  {
    if ops == [] {
      assert ops + [op] == [op] && [op][1..] == [];
      ApplySafe(s, op);
    } else {
      assert (ops + [op])[1..] == ops[1..] + [op];
      ApplySafe(s, ops[0]);
      RunOneMore(Apply(s, ops[0]), ops[1..], op);
    }
  }

  lemma EmptyIsExact()
    ensures Safe(EMPTY) && Exact(EMPTY) && NoGarbage(EMPTY)
  {
    forall p ensures NodeBalanced(EMPTY, NoExtra(), p) {}
    BalancedIsSafe(EMPTY, NoExtra());
  }

  /** The books with one node, of thread 1 */
  function OneNode(users: int, tops: map<nat, nat>, recs: map<nat, Option<nat>>): Store {
    Store(map[0 := Node(1, "a", None)], map[0 := users], tops, recs, 1)
  }

  /** A thread pushes and allocates once. */
  lemma PushAndMalloc() returns (ops: seq<Op>)
    ensures ops == [PushInfo(1, "a"), Malloc(1, 16)]
    ensures Safe(EMPTY) && Run(EMPTY, ops) == OneNode(2, map[1 := 0], map[16 := Some(0)])
  {
    EmptyIsExact();
    ops := [PushInfo(1, "a")];
    assert ops[1..] == [];
    assert Run(EMPTY, ops) == OneNode(1, map[1 := 0], map[]);
    RunOneMore(EMPTY, ops, Malloc(1, 16));
    ops := ops + [Malloc(1, 16)];
  }

  lemma PopOnly(users: int, recs: map<nat, Option<nat>>)
    requires Safe(OneNode(users, map[1 := 0], recs)) && users > 1
    ensures Pop(OneNode(users, map[1 := 0], recs), 1) == OneNode(users - 1, map[], recs)
  {
    var s := OneNode(users, map[1 := 0], recs);
    MovedShape(s, 1);
    assert Moved(s, 1) == OneNode(users, map[], recs);
  }

  lemma {:induction false} WithoutReallocations(s: Store, ops: seq<Op>)
    requires Safe(s) && Exact(s) && forall i :: 0 <= i < |ops| ==> !ops[i].Realloc?
    ensures Exact(Run(s, ops))
    decreases |ops|
  {
    if ops != [] {
      ApplySafe(s, ops[0]);
      WithoutReallocations(Apply(s, ops[0]), ops[1..]);
    }
  }

  /** A thread pushes, allocates and pops: the record is its node's only user. */
  lemma PushMallocPop() returns (ops: seq<Op>)
    ensures ops == [PushInfo(1, "a"), Malloc(1, 16), PopInfo(1)]
    ensures Safe(EMPTY) && Run(EMPTY, ops) == OneNode(1, map[], map[16 := Some(0)])
  {
    ops := PushAndMalloc();
    RunOneMore(EMPTY, ops, PopInfo(1));
    PopOnly(2, map[16 := Some(0)]);
    ops := ops + [PopInfo(1)];
  }

  lemma TrackedAgain(s: Store)
    requires Safe(s) && s == OneNode(1, map[], map[16 := Some(0)])
    ensures !NoGarbage(Apply(s, Malloc(1, 16)))
  {
    assert Track(s, 1, 16).references[0] == 0;
  }

  /** The same address is recorded once more, now without an info: the old node stays for ever. */
  lemma StrandingExample() returns (ops: seq<Op>)
    ensures ops == [PushInfo(1, "a"), Malloc(1, 16), PopInfo(1), Malloc(1, 16)]
    ensures Safe(EMPTY) && Exact(Run(EMPTY, ops)) && !NoGarbage(Run(EMPTY, ops))
  {
    EmptyIsExact();
    ops := PushMallocPop();
    RunOneMore(EMPTY, ops, Malloc(1, 16));
    TrackedAgain(Run(EMPTY, ops));
    ops := ops + [Malloc(1, 16)];
    WithoutReallocations(EMPTY, ops);
  }

  lemma MovedOver(s: Store)
    requires Safe(s) && s == OneNode(3, map[1 := 0], map[16 := Some(0), 32 := Some(0)])
    ensures !Exact(Apply(s, Realloc(16, 32)))
  {
    ApplySafe(s, Realloc(16, 32));
  }

  /** A thread pushes and allocates twice, and one allocation moves to where the other is on record. */
  lemma LossExample() returns (ops: seq<Op>)
    ensures ops == [PushInfo(1, "a"), Malloc(1, 16), Malloc(1, 32), Realloc(16, 32)]
    ensures Safe(EMPTY) && !Exact(Run(EMPTY, ops))
  {
    EmptyIsExact();
    ops := PushAndMalloc();
    RunOneMore(EMPTY, ops, Malloc(1, 32));
    ops := ops + [Malloc(1, 32)];
    MovedOver(Run(EMPTY, ops));
    RunOneMore(EMPTY, ops, Realloc(16, 32));
    ops := ops + [Realloc(16, 32)];
  }
}
