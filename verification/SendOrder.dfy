/** The keys of the retransmission queue (d1_both.c: dtls1_get_queue_priority, dtls1_buffer_message). */
module SendOrder {

  /** dtls1_get_queue_priority, as the two octets of the queue key hold it. */
  function QueuePriority(seqNum: nat, isCcs: bool): (k: nat)
    ensures k < 0x1_0000
  {
    (2 * seqNum - if isCcs then 1 else 0) % 0x1_0000
  }

  /** What one side sends in a handshake; HelloRequest and HelloVerifyRequest are not kept for retransmission. */
  datatype Sending = Message | Unkept | Ccs

  /** The message number after a sending: a CCS shares its number with the message that follows. */
  function NextNumber(next: nat, s: Sending): nat {
    if s.Ccs? then next else next + 1
  }

  /** The keys under which the kept sendings are buffered, in sending order. */
  function Keys(next: nat, sends: seq<Sending>): (r: seq<nat>)
    ensures forall k :: 0 <= k < |r| ==> r[k] < 0x1_0000
    ensures |r| == Kept(sends)
    decreases |sends|
  {
    if sends == [] then []
    else if sends[0].Unkept? then Keys(NextNumber(next, sends[0]), sends[1..])
    else [QueuePriority(next, sends[0].Ccs?)] + Keys(NextNumber(next, sends[0]), sends[1..])
  }

  function Kept(sends: seq<Sending>): nat {
    if sends == [] then 0 else (if sends[0].Unkept? then 0 else 1) + Kept(sends[1..])
  }

  function Messages(sends: seq<Sending>): nat {
    if sends == [] then 0 else (if sends[0].Ccs? then 0 else 1) + Messages(sends[1..])
  }

  ghost predicate Increasing(keys: seq<nat>) {
    forall i, j :: 0 <= i < j < |keys| ==> keys[i] < keys[j]
  }

  predicate NoAdjacentCcs(sends: seq<Sending>) {
    |sends| < 2 || (!(sends[0].Ccs? && sends[1].Ccs?) && NoAdjacentCcs(sends[1..]))
  }

  /** A CCS numbered 0, with anything to keep after it. */
  predicate OpensWithCcs(next: nat, sends: seq<Sending>) {
    next == 0 && sends != [] && sends[0].Ccs? && Kept(sends) > 1
  }

  lemma {:induction false} KeysFrom(next: nat, sends: seq<Sending>)
    requires next + Messages(sends) < 0x8000
    requires next == 0 ==> sends == [] || !sends[0].Ccs?
    ensures forall k :: 0 <= k < |Keys(next, sends)| ==> 2 * next - 1 <= Keys(next, sends)[k]
    ensures sends != [] && !sends[0].Ccs? ==>
              forall k :: 0 <= k < |Keys(next, sends)| ==> 2 * next <= Keys(next, sends)[k]
    decreases |sends|
  {
    if sends != [] {
      KeysFrom(NextNumber(next, sends[0]), sends[1..]);
    }
  }

  lemma {:induction false} KeysIncrease(next: nat, sends: seq<Sending>)
    requires next + Messages(sends) < 0x8000
    requires next == 0 ==> sends == [] || !sends[0].Ccs?
    ensures Increasing(Keys(next, sends)) <==> NoAdjacentCcs(sends)
    decreases |sends|
  {
    if sends != [] {
      var t := sends[1..];
      var next' := NextNumber(next, sends[0]);
      KeysIncrease(next', t);
      KeysFrom(next', t);
      var rest := Keys(next', t);
      var keys := Keys(next, sends);
      if !sends[0].Unkept? {
        assert forall k :: 0 <= k < |rest| ==> keys[k + 1] == rest[k];
        if sends[0].Ccs? && t != [] && t[0].Ccs? {
          assert rest[0] == keys[0] == keys[1];
        }
      }
    }
  }

  lemma {:induction false} NoneKeptNoneAdjacent(sends: seq<Sending>)
    requires Kept(sends) == 0
    ensures NoAdjacentCcs(sends) && (sends != [] ==> sends[0].Unkept?)
    decreases |sends|
  {
    if sends != [] { NoneKeptNoneAdjacent(sends[1..]); }
  }

  /**
   * Successive keys are strictly increasing, so that no insertion collides and the queue order is the
   * sending order, exactly when no two CCS are adjacent and none opens a handshake at number 0.
   */
  lemma KeysIncreaseIff(next: nat, sends: seq<Sending>)
    requires next + Messages(sends) < 0x8000
    ensures Increasing(Keys(next, sends)) <==> NoAdjacentCcs(sends) && !OpensWithCcs(next, sends)
  {
    if next == 0 && sends != [] && sends[0].Ccs? {
      var keys := Keys(next, sends);
      assert keys[0] == 0xFFFF;
      if Kept(sends) == 1 {
        NoneKeptNoneAdjacent(sends[1..]);
      } else {
        assert keys[1] < 0x1_0000;
      }
    } else {
      KeysIncrease(next, sends);
    }
  }

  /** The CCS stands between the message before it and the Finished that shares its number. */
  lemma CcsBetweenNeighbours(n: nat)
    requires 0 < n < 0x8000
    ensures QueuePriority(n - 1, false) < QueuePriority(n, true) < QueuePriority(n, false)
  {
  }
}
