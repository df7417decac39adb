/**
 * How dtls1_do_write (d1_both.c) cuts a handshake message into fragments: the specification
 * that the imperative loop in HandshakeWriter is proved against, and what it guarantees.
 */
module FragmentPlan {
  import opened Bytes
  import opened HandshakeHeader

  const RT_HEADER_LENGTH: nat := 13
  const RT_MAX_PLAIN_LENGTH: nat := 16384
  const MAX_MD_SIZE: nat := 64
  const MAX_BLOCK_LENGTH: nat := 32

  /** g_probable_mtu and the two functions over it. */
  const PROBABLE_MTU: seq<nat> := [1500 - 28, 512 - 28, 256 - 28]

  function MinMtu(): nat { PROBABLE_MTU[|PROBABLE_MTU| - 1] }

  function GuessMtu(currMtu: nat): (r: nat)
    ensures currMtu == 0 ==> r == 1472
    ensures currMtu != 0 ==> r <= currMtu
  {
    if currMtu == 0 then PROBABLE_MTU[0]
    else if currMtu > PROBABLE_MTU[0] then PROBABLE_MTU[0]
    else if currMtu > PROBABLE_MTU[1] then PROBABLE_MTU[1]
    else if currMtu > PROBABLE_MTU[2] then PROBABLE_MTU[2]
    else currMtu
  }

  /** The MTU a write starts with; `queried` is what the datagram BIO answers. */
  function ChooseMtu(mtu: nat, noQuery: bool, queried: nat): nat {
    if mtu < MinMtu() && !noQuery then
      if queried < MinMtu() then GuessMtu(0) else queried
    else mtu
  }

  /** A guess is the largest of the probable MTUs below the current one, if there is one below. */
  lemma GuessIsNextLower(currMtu: nat)
    requires currMtu > 0
    ensures var r, known := GuessMtu(currMtu), {1472, 484, 228};
            if currMtu > 228 then r in known && r < currMtu && forall m :: m in known && m < currMtu ==> m <= r
            else r == currMtu
  {
  }

  /**
   * The assertion that follows the choice fails exactly when querying is forbidden and the set MTU is too
   * small; of the set MTU, the answer to a query and 1472 the first is taken that may be used.
   */
  lemma ChooseMtuIsUsable(mtu: nat, noQuery: bool, queried: nat)
    ensures var r := ChooseMtu(mtu, noQuery, queried);
            && (r >= MinMtu() <==> !(noQuery && mtu < MinMtu()))
            && (noQuery || mtu >= 228 ==> r == mtu)
            && (!noQuery && mtu < 228 ==> r == if queried >= 228 then queried else 1472)
  {
    assert MinMtu() == 228;
  }

  /**
   * The datagram BIO as one write sees it. Before its i-th fragment, `pending(i)` octets wait
   * in the BIO and a flush, if one is needed, succeeds when `flushOk(i)`.
   */
  datatype Link = Link(mtu: nat, macSize: nat, blockSize: nat, pending: nat -> nat, flushOk: nat -> bool)
  {
    predicate Valid() {
      MinMtu() <= mtu && macSize <= MAX_MD_SIZE && blockSize <= 2 * MAX_BLOCK_LENGTH
    }

    /** Room for one fragment in an empty datagram. */
    function Room(): int { mtu - RT_HEADER_LENGTH - macSize - blockSize }

    predicate MustFlush(i: nat) { Room() - pending(i) <= HM_HEADER_LENGTH }

    /** curr_mtu once any flush is done */
    function Budget(i: nat): (b: int)
      requires Valid()
      ensures b > HM_HEADER_LENGTH
    {
      assert MinMtu() == 228;
      if MustFlush(i) then Room() else Room() - pending(i)
    }

    predicate Stalls(i: nat) { MustFlush(i) && !flushOk(i) }
  }

  /** A fragment: the offset its header announces and how many body octets it carries. */
  datatype Cut = Cut(off: nat, len: nat)

  /** What a call emits, and whether it got through the whole message. */
  datatype Plan = Plan(cuts: seq<Cut>, complete: bool)

  /**
   * Body octets in the next fragment when `rest` remain. The first fragment of a message has its
   * header in front already; a later one takes the header's room out of its length, and gives the
   * room back when nothing would be left.
   */
  function CutLen(budget: int, first: bool, rest: nat): (n: nat)
    requires budget > HM_HEADER_LENGTH
    ensures n <= rest
    ensures rest > 0 ==> n > 0
  {
    if first then
      (if rest + HM_HEADER_LENGTH > budget then budget else rest + HM_HEADER_LENGTH) - HM_HEADER_LENGTH
    else
      var len := if rest > budget then budget else rest;
      if len <= HM_HEADER_LENGTH then len else len - HM_HEADER_LENGTH
  }

  /** The fragments of the octets [off, total) from iteration `i` on. */
  function PlanFrom(link: Link, i: nat, first: bool, off: nat, total: nat): (p: Plan)
    requires link.Valid() && off <= total
    requires off == total ==> first
    decreases total - off
  {
    if link.Stalls(i) then Plan([], false)
    else
      var n := CutLen(link.Budget(i), first, total - off);
      if off + n == total then Plan([Cut(off, n)], true)
      else
        var rest := PlanFrom(link, i + 1, false, off + n, total);
        Plan([Cut(off, n)] + rest.cuts, rest.complete)
  }

  function Sent(cuts: seq<Cut>): nat {
    if cuts == [] then 0 else cuts[0].len + Sent(cuts[1..])
  }

  /** Each cut starts where the one before it stopped, the first one at `off`. */
  ghost predicate Contiguous(cuts: seq<Cut>, off: nat) {
    cuts == [] || (cuts[0].off == off && Contiguous(cuts[1..], off + cuts[0].len))
  }

  predicate Carries(c: Cut, k: nat) {
    c.off <= k < c.off + c.len
  }

  /** Body octet `k` is carried by some cut. */
  ghost predicate Covers(cuts: seq<Cut>, k: nat) {
    exists j :: 0 <= j < |cuts| && Carries(cuts[j], k)
  }

  /**
   * The cuts are contiguous from `off`, end within the message, and reach its end exactly when the
   * plan is complete; none is empty unless the message is.
   */
  lemma {:induction false} PlanPartitions(link: Link, i: nat, first: bool, off: nat, total: nat)
    requires link.Valid() && off <= total
    requires off == total ==> first
    ensures var p := PlanFrom(link, i, first, off, total);
            && Contiguous(p.cuts, off)
            && off + Sent(p.cuts) <= total
            && (p.complete ==> off + Sent(p.cuts) == total)
            && (off < total ==> (p.complete <==> off + Sent(p.cuts) == total))
            && (off < total ==> forall j :: 0 <= j < |p.cuts| ==> p.cuts[j].len > 0)
            && (p.cuts == [] ==> !p.complete)
    decreases total - off
  {
    if !link.Stalls(i) {
      var n := CutLen(link.Budget(i), first, total - off);
      if off + n < total {
        PlanPartitions(link, i + 1, false, off + n, total);
      }
    }
  }

  /** Contiguous cuts carry each octet of their range exactly once, and nothing else. */
  lemma {:induction false} ContiguousCoversOnce(cuts: seq<Cut>, off: nat, k: nat)
    requires Contiguous(cuts, off)
    ensures Covers(cuts, k) <==> off <= k < off + Sent(cuts)
    ensures forall a, b | 0 <= a < |cuts| && 0 <= b < |cuts| :: Carries(cuts[a], k) && Carries(cuts[b], k) ==> a == b
    decreases |cuts|
  {
    if cuts != [] {
      var t := cuts[1..];
      ContiguousCoversOnce(t, off + cuts[0].len, k);
      assert forall j :: 0 < j < |cuts| ==> cuts[j] == t[j - 1];
      if Covers(t, k) {
        var j :| 0 <= j < |t| && Carries(t[j], k);
        assert cuts[j + 1] == t[j];
      }
      if off <= k < off + cuts[0].len { assert Carries(cuts[0], k); }
      forall a | 0 < a < |cuts| && Carries(cuts[a], k)
        ensures off + cuts[0].len <= k
      {
        assert t[a - 1] == cuts[a];
        assert Covers(t, k);
      }
    }
  }

  /**
   * The octets handed to dtls1_write_bytes exceed the budget in one case only: a fragment after the
   * first that carries at most 12 octets under a budget below 24.
   */
  lemma CutFitsIff(budget: int, first: bool, rest: nat)
    requires budget > HM_HEADER_LENGTH
    ensures CutLen(budget, first, rest) + HM_HEADER_LENGTH <= budget
            <==> first || rest > HM_HEADER_LENGTH || rest + HM_HEADER_LENGTH <= budget
    ensures budget >= 2 * HM_HEADER_LENGTH ==> CutLen(budget, first, rest) + HM_HEADER_LENGTH <= budget
  {
  }

  /** The record a fragment becomes is longer than dtls1_write_bytes allows in one case only. */
  lemma CutTooLongIff(budget: int, first: bool, rest: nat)
    requires budget > HM_HEADER_LENGTH
    ensures CutLen(budget, first, rest) + HM_HEADER_LENGTH > RT_MAX_PLAIN_LENGTH
            <==> budget > RT_MAX_PLAIN_LENGTH
                 && (if first then rest + HM_HEADER_LENGTH else rest) > RT_MAX_PLAIN_LENGTH
  {
  }

  /** The cut at position `j` of a plan is the one for what its iteration finds. */
  lemma {:induction false} CutOfPlan(link: Link, i: nat, first: bool, off: nat, total: nat, j: nat)
    requires link.Valid() && off <= total
    requires off == total ==> first
    requires j < |PlanFrom(link, i, first, off, total).cuts|
    ensures var c := PlanFrom(link, i, first, off, total).cuts[j];
            c.off <= total && c.len == CutLen(link.Budget(i + j), first && j == 0, total - c.off)
    decreases total - off
  {
    var n := CutLen(link.Budget(i), first, total - off);
    if j > 0 { CutOfPlan(link, i + 1, false, off + n, total, j - 1); }
  }

  /** When a fragment of a plan keeps to the budget of its iteration, and when its record is too long. */
  lemma PlannedCutFitsIff(link: Link, i: nat, first: bool, off: nat, total: nat, j: nat)
    requires link.Valid() && off <= total
    requires off == total ==> first
    requires j < |PlanFrom(link, i, first, off, total).cuts|
    ensures var c, budget := PlanFrom(link, i, first, off, total).cuts[j], link.Budget(i + j);
            var rest := total - c.off;
            && rest >= 0
            && (c.len + HM_HEADER_LENGTH <= budget
                <==> (first && j == 0) || rest > HM_HEADER_LENGTH || rest + HM_HEADER_LENGTH <= budget)
            && (c.len + HM_HEADER_LENGTH > RT_MAX_PLAIN_LENGTH
                <==> budget > RT_MAX_PLAIN_LENGTH
                     && (if first && j == 0 then rest + HM_HEADER_LENGTH else rest) > RT_MAX_PLAIN_LENGTH)
  {
    CutOfPlan(link, i, first, off, total, j);
    var rest := total - PlanFrom(link, i, first, off, total).cuts[j].off;
    CutFitsIff(link.Budget(i + j), first && j == 0, rest);
    CutTooLongIff(link.Budget(i + j), first && j == 0, rest);
  }

  /** What the record, its MAC, its padding and the handshake header take of a datagram. */
  function Overhead(link: Link): nat {
    RT_HEADER_LENGTH + link.macSize + link.blockSize + HM_HEADER_LENGTH
  }

  /**
   * The octets that share a datagram with the fragment of an iteration: those that wait in the BIO, unless they
   * leave no room for a single octet of the message and are flushed first.
   */
  function Beside(link: Link, i: nat): nat {
    if link.pending(i) + Overhead(link) >= link.mtu then 0 else link.pending(i)
  }

  /**
   * A fragment, with all that shares its datagram, keeps to the MTU in every case but one: a later fragment
   * that carries the last 12 octets or less when they do not fit.
   */
  lemma DatagramFitsIff(link: Link, i: nat, first: bool, off: nat, total: nat, j: nat)
    requires link.Valid() && off <= total
    requires off == total ==> first
    requires j < |PlanFrom(link, i, first, off, total).cuts|
    ensures var c := PlanFrom(link, i, first, off, total).cuts[j];
            var rest, used := total - c.off, Beside(link, i + j) + Overhead(link);
            used + c.len <= link.mtu <==> (first && j == 0) || rest > 12 || used + rest <= link.mtu
  {
    CutOfPlan(link, i, first, off, total, j);
  }

  /**
   * No fragment is smaller than it need be: it carries all that is left, or fills its datagram to the MTU, or is
   * a later one that would have fitted with all that is left and stops 12 octets short of that.
   */
  lemma DatagramIsFilled(link: Link, i: nat, first: bool, off: nat, total: nat, j: nat)
    requires link.Valid() && off <= total
    requires off == total ==> first
    requires j < |PlanFrom(link, i, first, off, total).cuts|
    ensures var c := PlanFrom(link, i, first, off, total).cuts[j];
            var rest, used := total - c.off, Beside(link, i + j) + Overhead(link);
            || c.len == rest
            || used + c.len == link.mtu
            || (!(first && j == 0) && c.len == rest - 12 && used + c.len <= link.mtu)
  {
    CutOfPlan(link, i, first, off, total, j);
  }

  /** What waits leaves no room for an octet of the message, and cannot be flushed. */
  predicate Blocked(link: Link, i: nat) {
    link.pending(i) + Overhead(link) >= link.mtu && !link.flushOk(i)
  }

  /** A write goes on until the message is out or an iteration is blocked. */
  lemma {:induction false} StopsIffBlocked(link: Link, i: nat, first: bool, off: nat, total: nat)
    requires link.Valid() && off <= total
    requires off == total ==> first
    ensures var p := PlanFrom(link, i, first, off, total);
            && (!p.complete <==> Blocked(link, i + |p.cuts|) && (p.cuts == [] || off + Sent(p.cuts) < total))
            && forall j :: i <= j < i + |p.cuts| ==> !Blocked(link, j)
    decreases total - off
  {
    if !link.Stalls(i) {
      var n := CutLen(link.Budget(i), first, total - off);
      if off + n < total { StopsIffBlocked(link, i + 1, false, off + n, total); }
    }
  }

  /** The record-length assertion of dtls1_write_bytes can be relied on under this link. */
  predicate RecordsFit(link: Link, total: nat) {
    link.Room() <= RT_MAX_PLAIN_LENGTH || total + HM_HEADER_LENGTH <= RT_MAX_PLAIN_LENGTH
  }

  lemma {:induction false} RecordsFitSuffices(link: Link, i: nat, first: bool, off: nat, total: nat)
    requires link.Valid() && off <= total
    requires off == total ==> first
    requires RecordsFit(link, total)
    ensures forall j :: 0 <= j < |PlanFrom(link, i, first, off, total).cuts| ==>
                          PlanFrom(link, i, first, off, total).cuts[j].len + HM_HEADER_LENGTH <= RT_MAX_PLAIN_LENGTH
    decreases total - off
  {
    if !link.Stalls(i) {
      var n := CutLen(link.Budget(i), first, total - off);
      if off + n < total {
        RecordsFitSuffices(link, i + 1, false, off + n, total);
      }
    }
  }

  // ---- What a plan puts on the wire and into the handshake hash ----

  /** One fragment: the message's header with this fragment's range, then the octets of that range. */
  function Fragment(h: HmHeader, body: seq<byte>, c: Cut): seq<byte>
    requires c.off + c.len <= |body|
  {
    WriteHeader(h.(fragOff := c.off, fragLen := c.len)) + body[c.off..c.off + c.len]
  }

  predicate Within(cuts: seq<Cut>, total: nat) {
    forall j :: 0 <= j < |cuts| ==> cuts[j].off + cuts[j].len <= total
  }

  lemma {:induction false} ContiguousWithin(cuts: seq<Cut>, off: nat, total: nat)
    requires Contiguous(cuts, off) && off + Sent(cuts) <= total
    ensures Within(cuts, total)
    decreases |cuts|
  {
    if cuts != [] {
      ContiguousWithin(cuts[1..], off + cuts[0].len, total);
      assert forall j :: 0 < j < |cuts| ==> cuts[j] == cuts[1..][j - 1];
    }
  }

  function Fragments(h: HmHeader, body: seq<byte>, cuts: seq<Cut>): (r: seq<seq<byte>>)
    requires Within(cuts, |body|)
    ensures |r| == |cuts|
    ensures forall j :: 0 <= j < |cuts| ==> r[j] == Fragment(h, body, cuts[j])
  {
    seq(|cuts|, j requires 0 <= j < |cuts| => Fragment(h, body, cuts[j]))
  }

  lemma FragmentsCons(h: HmHeader, body: seq<byte>, c: Cut, cuts: seq<Cut>)
    requires Within(cuts, |body|) && c.off + c.len <= |body|
    ensures Within([c] + cuts, |body|)
    ensures Fragments(h, body, [c] + cuts) == [Fragment(h, body, c)] + Fragments(h, body, cuts)
  {
  }

  /** Only the message's own fields matter: the range in `h` is overwritten. */
  lemma RangeIsIrrelevant(h: HmHeader, now: HmHeader, body: seq<byte>, c: Cut)
    requires c.off + c.len <= |body|
    requires now == h.(fragOff := now.fragOff, fragLen := now.fragLen)
    ensures Fragment(now, body, c) == Fragment(h, body, c)
    ensures HashedPiece(now, body, c) == HashedPiece(h, body, c)
  {
  }

  /** The octets ssl3_finish_mac gets for one fragment. */
  function HashedPiece(h: HmHeader, body: seq<byte>, c: Cut): seq<byte>
    requires c.off + c.len <= |body|
  {
    (if c.off == 0 then WriteHeader(h.Whole()) else []) + body[c.off..c.off + c.len]
  }

  function Hashed(h: HmHeader, body: seq<byte>, cuts: seq<Cut>): seq<byte>
    requires Within(cuts, |body|)
  {
    if cuts == [] then []
    else
      assert forall j :: 0 <= j < |cuts| - 1 ==> cuts[1..][j] == cuts[j + 1];
      HashedPiece(h, body, cuts[0]) + Hashed(h, body, cuts[1..])
  }

  lemma HashedCons(h: HmHeader, body: seq<byte>, c: Cut, cuts: seq<Cut>)
    requires Within(cuts, |body|) && c.off + c.len <= |body|
    ensures Within([c] + cuts, |body|)
    ensures Hashed(h, body, [c] + cuts) == HashedPiece(h, body, c) + Hashed(h, body, cuts)
  {
    assert ([c] + cuts)[1..] == cuts;
  }

  /** The message as both ends hash it: whole header, whole body (section 4.2.6 of RFC 4347). */
  function Canonical(h: HmHeader, body: seq<byte>): seq<byte> {
    WriteHeader(h.Whole()) + body
  }

  lemma {:induction false} HashedTail(h: HmHeader, body: seq<byte>, cuts: seq<Cut>, off: nat)
    requires Contiguous(cuts, off) && off > 0 && Within(cuts, |body|)
    requires off + Sent(cuts) <= |body|
    ensures Hashed(h, body, cuts) == body[off..off + Sent(cuts)]
    decreases |cuts|
  {
    if cuts != [] {
      assert forall j :: 0 <= j < |cuts| - 1 ==> cuts[1..][j] == cuts[j + 1];
      HashedTail(h, body, cuts[1..], off + cuts[0].len);
    }
  }

  /** Contiguous cuts from offset 0 are hashed as the whole header and the octets they carry. */
  lemma HashedFromStart(h: HmHeader, body: seq<byte>, cuts: seq<Cut>)
    requires Contiguous(cuts, 0) && cuts != [] && cuts[0].len > 0 && Within(cuts, |body|)
    requires Sent(cuts) <= |body|
    ensures Hashed(h, body, cuts) == WriteHeader(h.Whole()) + body[..Sent(cuts)]
  {
    assert forall j :: 0 <= j < |cuts| - 1 ==> cuts[1..][j] == cuts[j + 1];
    HashedTail(h, body, cuts[1..], cuts[0].len);
    assert body[..Sent(cuts)] == body[..cuts[0].len] + body[cuts[0].len..Sent(cuts)];
  }

  /** What one call hashes that goes on with `rest`, the octets of the message not yet sent. */
  ghost function HashedByCall(link: Link, h: HmHeader, first: bool, rest: seq<byte>): seq<byte>
    requires link.Valid() && (rest == [] ==> first)
  {
    PlanPartitions(link, 0, first, 0, |rest|);
    ContiguousWithin(PlanFrom(link, 0, first, 0, |rest|).cuts, 0, |rest|);
    Hashed(h, rest, PlanFrom(link, 0, first, 0, |rest|).cuts)
  }

  lemma CallHashes(link: Link, h: HmHeader, first: bool, rest: seq<byte>)
    requires link.Valid() && rest != []
    ensures var cuts := PlanFrom(link, 0, first, 0, |rest|).cuts;
            && Sent(cuts) <= |rest|
            && HashedByCall(link, h, first, rest)
               == if cuts == [] then [] else WriteHeader(h.Whole()) + rest[..Sent(cuts)]
  {
    var cuts := PlanFrom(link, 0, first, 0, |rest|).cuts;
    PlanPartitions(link, 0, first, 0, |rest|);
    ContiguousWithin(cuts, 0, |rest|);
    if cuts != [] { HashedFromStart(h, rest, cuts); }
  }

  /** What is hashed while the whole of `body` goes out over `link`. */
  ghost function HashedOver(link: Link, h: HmHeader, body: seq<byte>): seq<byte>
    requires link.Valid()
  {
    HashedByCall(link, h, true, body)
  }

  /**
   * Whatever MTUs a message meets on its way out, the sender hashes it as if it had never been
   * fragmented, provided the write gets through.
   */
  lemma SenderHashesCanonicalForm(link: Link, h: HmHeader, body: seq<byte>)
    requires link.Valid()
    requires PlanFrom(link, 0, true, 0, |body|).complete
    ensures HashedOver(link, h, body) == Canonical(h, body)
  {
    PlanPartitions(link, 0, true, 0, |body|);
    if |body| == 0 {
      EmptyBodyHash(link, h);
    } else {
      CallHashes(link, h, true, body);
      assert body[..|body|] == body;
    }
  }

  /** A message without a body still goes out, as one empty fragment. */
  lemma EmptyBodyHash(link: Link, h: HmHeader)
    requires link.Valid() && !link.Stalls(0)
    ensures HashedByCall(link, h, true, []) == WriteHeader(h.Whole())
  {
    var cuts := PlanFrom(link, 0, true, 0, 0).cuts;
    assert cuts == [Cut(0, 0)] && cuts[1..] == [];
    assert HashedPiece(h, [], cuts[0]) == WriteHeader(h.Whole());
    assert Hashed(h, [], cuts) == HashedPiece(h, [], cuts[0]) + Hashed(h, [], cuts[1..]);
  }

  /**
   * A write that a failed flush interrupts after `sent` octets is resumed by calling dtls1_do_write
   * again, and the new call numbers its fragments from offset 0 once more. The two calls together
   * announce every octet of the message exactly when the first call had sent nothing.
   */
  lemma ResumedWriteCoversIff(link: Link, again: Link, total: nat)
    requires link.Valid() && again.Valid() && total > 0
    requires !PlanFrom(link, 0, true, 0, total).complete
    ensures var first := PlanFrom(link, 0, true, 0, total).cuts;
            var sent := Sent(first);
            sent < total &&
            var second := PlanFrom(again, 0, sent == 0, 0, total - sent);
            second.complete ==>
              ((forall k :: 0 <= k < total ==> Covers(first + second.cuts, k)) <==> link.Stalls(0))
  {
    var first := PlanFrom(link, 0, true, 0, total).cuts;
    PlanPartitions(link, 0, true, 0, total);
    var sent := Sent(first);
    var second := PlanFrom(again, 0, sent == 0, 0, total - sent);
    PlanPartitions(again, 0, sent == 0, 0, total - sent);
    if second.complete {
      forall k: nat
        ensures Covers(first + second.cuts, k) <==> k < sent || k < total - sent
      {
        ContiguousCoversOnce(first, 0, k);
        ContiguousCoversOnce(second.cuts, 0, k);
        CoversConcat(first, second.cuts, k);
      }
      if !link.Stalls(0) {
        assert sent > 0;
        assert !Covers(first + second.cuts, total - 1);
      }
    }
  }

  /**
   * A resumed write also hashes the header of the message once more, in front of what it resumes with. The
   * two calls together hash the message in its canonical form exactly when the first had sent nothing.
   */
  lemma ResumedHashIff(link: Link, again: Link, h: HmHeader, body: seq<byte>)
    requires link.Valid() && again.Valid() && body != []
    requires !PlanFrom(link, 0, true, 0, |body|).complete
    ensures var sent := Sent(PlanFrom(link, 0, true, 0, |body|).cuts);
            && sent < |body|
            && var both := HashedByCall(link, h, true, body) + HashedByCall(again, h, sent == 0, body[sent..]);
               PlanFrom(again, 0, sent == 0, 0, |body| - sent).complete ==>
                 (both == Canonical(h, body) <==> link.Stalls(0))
  {
    var cuts := PlanFrom(link, 0, true, 0, |body|).cuts;
    PlanPartitions(link, 0, true, 0, |body|);
    var sent := Sent(cuts);
    var rest := body[sent..];
    CallHashes(link, h, true, body);
    if PlanFrom(again, 0, sent == 0, 0, |rest|).complete {
      CompleteCallHashes(again, h, sent == 0, rest);
      HeaderTwiceIff(WriteHeader(h.Whole()), body, sent, HashedByCall(link, h, true, body),
                     HashedByCall(again, h, sent == 0, rest));
    }
  }

  lemma CompleteCallHashes(link: Link, h: HmHeader, first: bool, rest: seq<byte>)
    requires link.Valid() && rest != [] && PlanFrom(link, 0, first, 0, |rest|).complete
    ensures HashedByCall(link, h, first, rest) == WriteHeader(h.Whole()) + rest
  {
    CallHashes(link, h, first, rest);
    PlanPartitions(link, 0, first, 0, |rest|);
    assert rest[..|rest|] == rest;
  }

  lemma HeaderTwiceIff(header: seq<byte>, body: seq<byte>, sent: nat, first: seq<byte>, second: seq<byte>)
    requires header != [] && sent <= |body|
    requires first == if sent == 0 then [] else header + body[..sent]
    requires second == header + body[sent..]
    ensures first + second == header + body <==> sent == 0
  {
    if sent == 0 {
      assert body[0..] == body;
    } else {
      assert |first + second| == 2 * |header| + |body|;
    }
  }

  lemma CoversConcat(a: seq<Cut>, b: seq<Cut>, k: nat)
    ensures Covers(a + b, k) <==> Covers(a, k) || Covers(b, k)
  {
    var c := a + b;
    if Covers(a, k) {
      var j :| 0 <= j < |a| && Carries(a[j], k);
      assert c[j] == a[j];
    }
    if Covers(b, k) {
      var j :| 0 <= j < |b| && Carries(b[j], k);
      assert c[|a| + j] == b[j];
    }
  }
}
