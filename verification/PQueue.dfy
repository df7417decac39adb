/** The pqueue interface the DTLS code relies on: items in ascending key order, duplicate keys rejected. */
module PQueue {
  import opened Wrappers

  datatype Item<+T> = Item(key: nat, data: T)

  ghost predicate Sorted<T>(q: seq<Item<T>>) {
    forall i, j :: 0 <= i < j < |q| ==> q[i].key < q[j].key
  }

  /** How many leading items have a key below `key`. */
  function Slot<T>(q: seq<Item<T>>, key: nat): (n: nat)
    ensures n <= |q|
    ensures forall i :: 0 <= i < n ==> q[i].key < key
    ensures n < |q| ==> key <= q[n].key
  {
    if q == [] || key <= q[0].key then 0 else 1 + Slot(q[1..], key)
  }

  /** pqueue_find */
  predicate Has<T>(q: seq<Item<T>>, key: nat) {
    var n := Slot(q, key);
    n < |q| && q[n].key == key
  }

  /** pqueue_insert: a duplicate key leaves the queue as it was. */
  function Insert<T>(q: seq<Item<T>>, x: Item<T>): (r: seq<Item<T>>)
    requires Sorted(q)
    ensures Sorted(r)
  {
    var n := Slot(q, x.key);
    if Has(q, x.key) then q else q[..n] + [x] + q[n..]
  }

  lemma SlotOfKey<T>(q: seq<Item<T>>, i: nat)
    requires Sorted(q) && i < |q|
    ensures Slot(q, q[i].key) == i && Has(q, q[i].key)
  {
    var n := Slot(q, q[i].key);
    assert n <= i;
  }

  /** A position is a key's slot when what precedes it is smaller and what is there is not. */
  lemma SlotUnique<T>(q: seq<Item<T>>, key: nat, n: nat)
    requires Sorted(q) && n <= |q|
    requires forall i :: 0 <= i < n ==> q[i].key < key
    requires n < |q| ==> key <= q[n].key
    ensures Slot(q, key) == n
  {
  }

  /** The data under a key */
  function Find<T>(q: seq<Item<T>>, key: nat): (r: Option<T>)
    ensures r.Some? <==> Has(q, key)
  {
    if Has(q, key) then Some(q[Slot(q, key)].data) else None
  }

  /** An insertion is found under its key if nothing was there, and no other key notices. */
  lemma FindAfterInsert<T>(q: seq<Item<T>>, x: Item<T>, key: nat)
    requires Sorted(q)
    ensures Find(Insert(q, x), key) == if key == x.key && !Has(q, key) then Some(x.data) else Find(q, key)
    ensures key <= x.key ==> Slot(Insert(q, x), key) == Slot(q, key)
  {
    var r, n, m := Insert(q, x), Slot(q, x.key), Slot(q, key);
    if !Has(q, x.key) {
      if key <= x.key {
        SlotUnique(r, key, m);
      } else {
        SlotUnique(r, key, m + 1);
      }
    }
  }

  lemma FindAfterUpdate<T>(q: seq<Item<T>>, n: nat, x: Item<T>, key: nat)
    requires Sorted(q) && n < |q| && q[n].key == x.key
    ensures Sorted(q[n := x]) && Slot(q[n := x], key) == Slot(q, key)
    ensures Find(q[n := x], key) == if key == x.key then Some(x.data) else Find(q, key)
  {
    SlotUnique(q[n := x], key, Slot(q, key));
    SlotOfKey(q, n);
  }

  /** An insertion above every key appends. */
  lemma InsertAppends<T>(q: seq<Item<T>>, x: Item<T>)
    requires Sorted(q)
    requires forall i :: 0 <= i < |q| ==> q[i].key < x.key
    ensures Insert(q, x) == q + [x]
  {
    var n := Slot(q, x.key);
    assert n == |q|;
    assert q[..n] == q && q[n..] == [];
  }
}
