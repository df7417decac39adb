/** The retransmission queue a handshake builds up, against the order in which its messages were first sent. */
module SendQueue {
  import opened PQueue
  import opened SendOrder
  import opened HandshakeWriter

  /** One call of a sender: what is sent, and the state and epoch it goes out under. */
  datatype Call = Call(what: Outgoing, state: WriteState, epoch: nat)

  function Kinds(calls: seq<Call>): (r: seq<Sending>)
    ensures |r| == |calls|
  {
    if calls == [] then [] else [calls[0].what.kind] + Kinds(calls[1..])
  }

  ghost predicate AllValid(calls: seq<Call>) {
    forall i :: 0 <= i < |calls| ==> calls[i].what.Valid()
  }

  /** sent_messages after the calls, each as HandshakeWriter.Prepare changes it. */
  ghost function QueueAfter(q: seq<Item<Saved>>, next: nat, calls: seq<Call>): (r: seq<Item<Saved>>)
    requires Sorted(q) && AllValid(calls)
    ensures Sorted(r)
    decreases |calls|
  {
    if calls == [] then q
    else
      var c := calls[0];
      var next' := if c.what.kind.Ccs? then next else Following(next, c.what.kind);
      QueueAfter(Enqueue(q, next, c.what, c.state, c.epoch), next', calls[1..])
  }

  /** The kept messages in the order they were sent. */
  ghost function InOrder(next: nat, calls: seq<Call>): seq<Item<Saved>>
    requires AllValid(calls)
    decreases |calls|
  {
    if calls == [] then []
    else
      var c := calls[0];
      (if c.what.kind.Unkept? then []
       else [Item(QueuePriority(next, c.what.kind.Ccs?), c.what.Save(next, c.state, c.epoch))])
      + InOrder(NextNumber(next, c.what.kind), calls[1..])
  }

  function KeysOf(q: seq<Item<Saved>>): (r: seq<nat>)
    ensures |r| == |q|
    ensures forall i :: 0 <= i < |q| ==> r[i] == q[i].key
  {
    seq(|q|, i requires 0 <= i < |q| => q[i].key)
  }

  lemma {:induction false} KeysInOrder(next: nat, calls: seq<Call>)
    requires AllValid(calls)
    ensures KeysOf(InOrder(next, calls)) == Keys(next, Kinds(calls))
    decreases |calls|
  {
    if calls != [] {
      var kind := calls[0].what.kind;
      KeysInOrder(NextNumber(next, kind), calls[1..]);
      assert Kinds(calls)[0] == kind && Kinds(calls)[1..] == Kinds(calls[1..]);
    }
  }

  lemma SortedIffIncreasing(q: seq<Item<Saved>>)
    ensures Sorted(q) <==> Increasing(KeysOf(q))
  {
    var keys := KeysOf(q);
    if Increasing(keys) {
      forall i, j | 0 <= i < j < |q| ensures q[i].key < q[j].key { assert keys[i] < keys[j]; }
    }
  }

  /** Splitting a sorted queue around one of its items. */
  lemma SortedSplit(q: seq<Item<Saved>>, e: Item<Saved>, rest: seq<Item<Saved>>)
    requires Sorted(q + ([e] + rest))
    ensures forall i :: 0 <= i < |q| ==> q[i].key < e.key
    ensures Sorted(q + [e]) && Sorted((q + [e]) + rest)
    ensures (q + [e]) + rest == q + ([e] + rest)
  {
    var all := q + ([e] + rest);
    assert all == (q + [e]) + rest;
    assert all[|q|] == e;
    assert forall i :: 0 <= i < |q| ==> all[i] == q[i];
    assert q + [e] == all[..|q| + 1];
  }

  lemma {:induction false} InOrderIfIncreasing(q: seq<Item<Saved>>, next: nat, calls: seq<Call>)
    requires Sorted(q) && AllValid(calls)
    requires next + Messages(Kinds(calls)) < 0x8000
    requires Sorted(q + InOrder(next, calls))
    ensures QueueAfter(q, next, calls) == q + InOrder(next, calls)
    decreases |calls|
  {
    if calls == [] {
      assert q + [] == q;
    } else {
      var c, more := calls[0], calls[1..];
      var next' := NextNumber(next, c.what.kind);
      assert Messages(Kinds(calls)) == (if c.what.kind.Ccs? then 0 else 1) + Messages(Kinds(more)) by {
        assert Kinds(calls)[0] == c.what.kind && Kinds(calls)[1..] == Kinds(more);
      }
      var rest := InOrder(next', more);
      assert (if c.what.kind.Ccs? then next else Following(next, c.what.kind)) == next';
      if c.what.kind.Unkept? {
        assert InOrder(next, calls) == rest;
        InOrderIfIncreasing(q, next', more);
        assert QueueAfter(q, next, calls) == QueueAfter(q, next', more);
      } else {
        var e := Item(QueuePriority(next, c.what.kind.Ccs?), c.what.Save(next, c.state, c.epoch));
        assert InOrder(next, calls) == [e] + rest;
        SortedSplit(q, e, rest);
        InsertAppends(q, e);
        InOrderIfIncreasing(q + [e], next', more);
        calc {
          QueueAfter(q, next, calls);
          QueueAfter(Enqueue(q, next, c.what, c.state, c.epoch), next', more);
          { assert Enqueue(q, next, c.what, c.state, c.epoch) == Insert(q, e) == q + [e]; }
          QueueAfter(q + [e], next', more);
          (q + [e]) + rest;
          q + ([e] + rest);
          q + InOrder(next, calls);
        }
      }
    }
  }

  /** The queue holds the kept messages, all of them, in the order they were first sent. */
  ghost predicate Faithful(next: nat, calls: seq<Call>)
    requires AllValid(calls)
  {
    QueueAfter([], next, calls) == InOrder(next, calls)
  }

  lemma FaithfulIffSorted(next: nat, calls: seq<Call>)
    requires AllValid(calls)
    requires next + Messages(Kinds(calls)) < 0x8000
    ensures Faithful(next, calls) <==> Sorted(InOrder(next, calls))
  {
    if Sorted(InOrder(next, calls)) {
      assert [] + InOrder(next, calls) == InOrder(next, calls);
      InOrderIfIncreasing([], next, calls);
    }
  }

  /**
   * Nothing is lost to a key collision, and replaying the queue front to back repeats the flight as it
   * was sent, exactly when no two CCS are adjacent and none opens the handshake at number 0.
   */
  lemma QueueIsSendOrderIff(next: nat, calls: seq<Call>)
    requires AllValid(calls)
    requires next + Messages(Kinds(calls)) < 0x8000
    ensures Faithful(next, calls) <==> NoAdjacentCcs(Kinds(calls)) && !OpensWithCcs(next, Kinds(calls))
  {
    FaithfulIffSorted(next, calls);
    SortedIffIncreasing(InOrder(next, calls));
    KeysInOrder(next, calls);
    KeysIncreaseIff(next, Kinds(calls));
  }
}
