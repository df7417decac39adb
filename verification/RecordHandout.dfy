/**
 * Which records dtls1_get_record hands to its caller (d1_pkt.c): every record that is processed, as often as it is
 * processed, buffered ones first and in the order of their numbers.
 */
module RecordHandout {
  import opened PQueue
  import opened RecordRepeats
  import opened RecordSpec
  import opened ReplayWindow

  /** A record that was processed: its number, and the epoch it was processed in. */
  datatype Tag = Tag(epoch: nat, num: nat)

  function TagsOf(log: seq<Accepted>): (r: seq<Tag>)
    ensures |r| == |log|
  {
    seq(|log|, i requires 0 <= i < |log| => Tag(log[i].epoch, log[i].num))
  }

  /** A run with the records handed out so far, and for each one in processed_rcds the epoch it was processed in. */
  datatype Ledger = Ledger(s: Reader, held: map<nat, nat>, out: seq<Tag>)

  /** The epoch of a queued record: what was noted, or the current one when it has only just been processed. */
  function EpochOf(held: map<nat, nat>, now: nat, num: nat): nat { if num in held then held[num] else now }

  function HeldTags(q: seq<Item<Rec>>, held: map<nat, nat>, now: nat): (r: seq<Tag>)
    ensures |r| == |q|
  {
    seq(|q|, i requires 0 <= i < |q| => Tag(EpochOf(held, now, q[i].key), q[i].key))
  }

  function Keys(q: seq<Item<Rec>>): set<nat> { set i | 0 <= i < |q| :: q[i].key }

  ghost predicate Valid(l: Ledger) {
    QueuesSorted(l.s) && Keyed(l.s.unprocessed) && Keyed(l.s.processed) && l.held.Keys == Keys(l.s.processed)
  }

  /** The notes on what is in the queue now */
  function Noted(q: seq<Item<Rec>>, held: map<nat, nat>, now: nat): (r: map<nat, nat>)
    ensures r.Keys == Keys(q)
  {
    map n | n in Keys(q) :: EpochOf(held, now, n)
  }

  function AfterGet(l: Ledger, wire: seq<Rec>, inHandshake: bool, auth: Authentic, width: nat): Ledger
    requires QueuesSorted(l.s)
  {
    var (s, r, _) := GetRecord(l.s, wire, inHandshake, auth, width);
    Ledger(s, Noted(s.processed, l.held, l.s.rEpoch),
           l.out + if r.None? then [] else [Tag(EpochOf(l.held, l.s.rEpoch, r.value.Num()), r.value.Num())])
  }

  function Trace(l: Ledger, actions: seq<Action>, auth: Authentic, width: nat): Ledger
    requires QueuesSorted(l.s)
    decreases |actions|
  {
    if actions == [] then l
    else
      match actions[0]
      case Get(wire, inHandshake) =>
        GetRecordSorted(l.s, wire, inHandshake, auth, width);
        Trace(AfterGet(l, wire, inHandshake, auth, width), actions[1..], auth, width)
      case NewEpoch => Trace(l.(s := ChangeReadEpoch(l.s)), actions[1..], auth, width)
  }

  const Opening: Ledger := Ledger(Start, map[], [])

  /** The ledger only looks on. */
  lemma {:induction false} TraceIsRun(l: Ledger, actions: seq<Action>, auth: Authentic, width: nat)
    requires QueuesSorted(l.s)
    ensures Trace(l, actions, auth, width).s == Run(l.s, actions, auth, width)
    decreases |actions|
  {
    if actions != [] {
      match actions[0]
      case Get(wire, inHandshake) =>
        GetRecordSorted(l.s, wire, inHandshake, auth, width);
        TraceIsRun(AfterGet(l, wire, inHandshake, auth, width), actions[1..], auth, width);
      case NewEpoch => TraceIsRun(l.(s := ChangeReadEpoch(l.s)), actions[1..], auth, width);
    }
  }

  // ---- One record into the queue of processed ones ----

  predicate Accepts(q: seq<Item<Rec>>, num: nat) { |q| < 100 && !Has(q, num) }

  lemma BufferTags(q: seq<Item<Rec>>, r: Rec, held: map<nat, nat>, now: nat)
    requires Sorted(q) && Keyed(q) && held.Keys <= Keys(q)
    ensures Keyed(Buffer(q, r)) && held.Keys <= Keys(Buffer(q, r))
    ensures |Buffer(q, r)| == |q| + if Accepts(q, r.Num()) then 1 else 0
    ensures multiset(HeldTags(Buffer(q, r), held, now))
            == multiset(HeldTags(q, held, now))
               + if Accepts(q, r.Num()) then multiset{Tag(now, r.Num())} else multiset{}
  {
    BufferKeyed(q, r);
    if Accepts(q, r.Num()) {
      InsertedTags(q, r, held, now);
      KeysGrow(q, r);
    }
  }

  lemma NotHeld(q: seq<Item<Rec>>, num: nat)
    requires Sorted(q)
    ensures num in Keys(q) <==> Has(q, num)
  {
    if num in Keys(q) {
      var i :| 0 <= i < |q| && q[i].key == num;
      SlotOfKey(q, i);
    }
  }

  lemma KeysGrow(q: seq<Item<Rec>>, r: Rec)
    requires Sorted(q) && Accepts(q, r.Num())
    ensures Keys(q) <= Keys(Buffer(q, r))
  {
    var n, q' := Slot(q, r.Num()), Buffer(q, r);
    forall k | k in Keys(q) ensures k in Keys(q') {
      var i :| 0 <= i < |q| && q[i].key == k;
      assert q'[if i < n then i else i + 1] == q[i];
    }
  }

  lemma InsertedTags(q: seq<Item<Rec>>, r: Rec, held: map<nat, nat>, now: nat)
    requires Sorted(q) && Keyed(q) && held.Keys <= Keys(q) && Accepts(q, r.Num())
    ensures multiset(HeldTags(Buffer(q, r), held, now))
            == multiset(HeldTags(q, held, now)) + multiset{Tag(now, r.Num())}
  {
    NotHeld(q, r.Num());
    var n := Slot(q, r.Num());
    TagsSpliced(q, Item(r.Num(), r), n, held, now);
  }

  lemma TagsSpliced(q: seq<Item<Rec>>, x: Item<Rec>, n: nat, held: map<nat, nat>, now: nat)
    requires n <= |q| && x.key !in held
    ensures multiset(HeldTags(q[..n] + [x] + q[n..], held, now))
            == multiset(HeldTags(q, held, now)) + multiset{Tag(now, x.key)}
  {
    var tags := HeldTags(q, held, now);
    assert HeldTags(q[..n] + [x] + q[n..], held, now) == tags[..n] + [Tag(now, x.key)] + tags[n..];
    assert tags == tags[..n] + tags[n..];
  }

  // ---- One drain ----

  /** Buffering a series of records, first to last. */
  function Filled(q: seq<Item<Rec>>, u: seq<Item<Rec>>): (r: seq<Item<Rec>>)
    requires Sorted(q)
    ensures Sorted(r)
    decreases |u|
  {
    if u == [] then q else Filled(Buffer(q, u[0].data), u[1..])
  }

  /** The queued records that a drain processes. */
  function Head(s: Reader, auth: Authentic): (u: seq<Item<Rec>>)
    ensures u <= s.unprocessed
  {
    s.unprocessed[..Passing(s.unprocessed, s.rEpoch, auth)]
  }

  lemma {:induction false} DrainFills(s: Reader, auth: Authentic, width: nat)
    requires QueuesSorted(s)
    ensures Drain(s, auth, width).0.processed == Filled(s.processed, Head(s, auth))
    decreases |s.unprocessed|
  {
    var u := s.unprocessed;
    if u != [] && auth(s.rEpoch, u[0].data) {
      var s' := Process(s.(unprocessed := u[1..]), u[0].data, false, auth, width).0;
      var t := s'.(processed := Buffer(s'.processed, u[0].data));
      DrainFills(t, auth, width);
      assert Head(s, auth)[1..] == Head(t, auth);
    }
  }

  /** The other queue has room for these records, each under a number of its own. */
  predicate FitIn(q: seq<Item<Rec>>, u: seq<Item<Rec>>) {
    u == [] || (|q| + |u| <= 100 && forall i :: 0 <= i < |u| ==> !Has(q, u[i].data.Num()))
  }

  lemma FitCons(q: seq<Item<Rec>>, u: seq<Item<Rec>>)
    requires Sorted(q) && Sorted(u) && Keyed(u) && u != []
    ensures FitIn(q, u) <==> Accepts(q, u[0].data.Num()) && FitIn(Buffer(q, u[0].data), u[1..])
  {
    var r := u[0].data;
    if Accepts(q, r.Num()) {
      forall i | 0 <= i < |u| - 1 ensures Has(Buffer(q, r), u[1..][i].data.Num()) <==> Has(q, u[i + 1].data.Num()) {
        assert u[0].key < u[i + 1].key;
        FindAfterInsert(q, Item(r.Num(), r), u[i + 1].key);
      }
      if FitIn(Buffer(q, r), u[1..]) {
        forall i | 0 <= i < |u| ensures !Has(q, u[i].data.Num()) {
          if i > 0 { assert !Has(Buffer(q, r), u[1..][i - 1].data.Num()); }
        }
      }
    }
  }

  /** The tags that queued records get when they are processed. */
  function NewTags(u: seq<Item<Rec>>, now: nat): seq<Tag> { TagsOf(Entries(u, now)) }

  lemma NewTagsCons(u: seq<Item<Rec>>, now: nat)
    requires u != []
    ensures multiset(NewTags(u, now)) == multiset{Tag(now, u[0].data.Num())} + multiset(NewTags(u[1..], now))
  {
    assert NewTags(u, now) == [Tag(now, u[0].data.Num())] + NewTags(u[1..], now);
  }

  /** One record more, taken in or lost. */
  lemma Tally(was: multiset<Tag>, one: multiset<Tag>, all: multiset<Tag>, offered: multiset<Tag>,
              others: multiset<Tag>, t: Tag, taken: bool, later: multiset<Tag>)
    returns (lost: multiset<Tag>)
    requires one == was + if taken then multiset{t} else multiset{}
    requires offered == multiset{t} + others && all + later == one + others
    ensures all + lost == was + offered
    ensures lost == multiset{} <==> taken && later == multiset{}
  {
    if taken {
      lost := later;
    } else {
      lost := later + multiset{t};
      assert all + lost == (all + later) + multiset{t};
      assert t in lost;
    }
    assert was + offered == was + multiset{t} + others;
  }

  /** Records put into a queue are in it afterwards, but for those turned away. */
  lemma {:induction false} FilledHolds(q: seq<Item<Rec>>, u: seq<Item<Rec>>, held: map<nat, nat>, now: nat)
    returns (lost: multiset<Tag>)
    requires Sorted(q) && Keyed(q) && Sorted(u) && Keyed(u) && held.Keys <= Keys(q)
    ensures Keyed(Filled(q, u)) && held.Keys <= Keys(Filled(q, u))
    ensures multiset(HeldTags(Filled(q, u), held, now)) + lost
            == multiset(HeldTags(q, held, now)) + multiset(NewTags(u, now))
    ensures lost == multiset{} <==> FitIn(q, u)
    decreases |u|
  {
    if u == [] {
      lost := multiset{};
    } else {
      var num := u[0].data.Num();
      var one := Buffer(q, u[0].data);
      BufferTags(q, u[0].data, held, now);
      NewTagsCons(u, now);
      FitCons(q, u);
      var later := FilledHolds(one, u[1..], held, now);
      lost := Tally(multiset(HeldTags(q, held, now)), multiset(HeldTags(one, held, now)),
                    multiset(HeldTags(Filled(one, u[1..]), held, now)), multiset(NewTags(u, now)),
                    multiset(NewTags(u[1..], now)), Tag(now, num), Accepts(q, num), later);
    }
  }

  // ---- One call ----

  /** What is about to be drained before the next record is looked for. */
  function Due(s: Reader, auth: Authentic): (u: seq<Item<Rec>>)
    ensures u <= s.unprocessed
  {
    if WillDrain(s) then Head(s, auth) else []
  }

  lemma DueIsProcessed(s: Reader, auth: Authentic, width: nat)
    requires QueuesSorted(s) && Keyed(s.unprocessed)
    ensures var (b, u) := (ProcessBuffered(s, auth, width), Due(s, auth));
            && b.processed == Filled(s.processed, u) && b.log == s.log + Entries(u, s.rEpoch)
            && b.rEpoch == s.rEpoch && Keyed(b.unprocessed) && Sorted(u) && Keyed(u)
  {
    DrainIs(s, auth, width);
    DrainFills(s, auth, width);
    assert s.log + Entries([], s.rEpoch) == s.log;
  }

  /** Once the queue of processed records is empty, a call brings at most one record, straight from the wire. */
  lemma {:induction false} WireBrings(s: Reader, wire: seq<Rec>, inHandshake: bool, auth: Authentic, width: nat)
    requires QueuesSorted(s)
    ensures var (t, r, rest) := ReadWire(s, wire, inHandshake, auth, width);
            && t.processed == s.processed
            && match r
               case Some(r) => && t.log == s.log + [Accepted(s.rEpoch, r.Num(), true)]
                               && |rest| < |wire| && r == wire[|wire| - |rest| - 1]
                               && rest == wire[|wire| - |rest|..]
               case None => t.log == s.log && rest == []
    decreases |wire|
  {
    if wire != [] {
      var (s', ok) := FromWire(s, wire[0], inHandshake, auth, width);
      if !ok { WireBrings(s', wire[1..], inHandshake, auth, width); }
    }
  }

  /** Every processed record has been handed out, is waiting in the queue, or is among those lost. */
  ghost predicate Balanced(l: Ledger, lost: multiset<Tag>) {
    && Valid(l)
    && multiset(TagsOf(l.s.log))
       == multiset(l.out) + multiset(HeldTags(l.s.processed, l.held, l.s.rEpoch)) + lost
  }

  lemma NotedTags(q: seq<Item<Rec>>, held: map<nat, nat>, now: nat, later: nat)
    ensures HeldTags(q, Noted(q, held, now), later) == HeldTags(q, held, now)
  {
    forall i | 0 <= i < |q|
      ensures HeldTags(q, Noted(q, held, now), later)[i] == HeldTags(q, held, now)[i]
    {
      assert q[i].key in Keys(q);
    }
  }

  lemma FirstTag(q: seq<Item<Rec>>, held: map<nat, nat>, now: nat)
    requires q != []
    ensures multiset(HeldTags(q, held, now))
            == multiset{Tag(EpochOf(held, now, q[0].key), q[0].key)}
               + multiset(HeldTags(q[1..], Noted(q[1..], held, now), now))
  {
    NotedTags(q[1..], held, now, now);
    assert HeldTags(q, held, now) == [Tag(EpochOf(held, now, q[0].key), q[0].key)] + HeldTags(q[1..], held, now);
  }

  lemma LogGrows(log: seq<Accepted>, more: seq<Accepted>)
    ensures multiset(TagsOf(log + more)) == multiset(TagsOf(log)) + multiset(TagsOf(more))
  {
    assert TagsOf(log + more) == TagsOf(log) + TagsOf(more);
  }

  lemma LostSoFar(logged: multiset<Tag>, out: multiset<Tag>, waiting: multiset<Tag>, lost: multiset<Tag>,
                  due: multiset<Tag>, filled: multiset<Tag>, more: multiset<Tag>)
    returns (all: multiset<Tag>)
    requires logged == out + waiting + lost && filled + more == waiting + due
    ensures logged + due == out + filled + all
    ensures all == multiset{} <==> lost == multiset{} && more == multiset{}
  {
    all := lost + more;
    assert logged + due == out + (waiting + due) + lost;
    assert all == multiset{} <==> lost == multiset{} && more == multiset{};
  }

  /** What is due has moved into the queue of processed records, or been turned away. */
  lemma DueHolds(l: Ledger, lost: multiset<Tag>, b: Reader, auth: Authentic, width: nat)
    returns (lost': multiset<Tag>)
    requires Balanced(l, lost) && b == ProcessBuffered(l.s, auth, width)
    ensures QueuesSorted(b) && Keyed(b.unprocessed) && Keyed(b.processed) && b.rEpoch == l.s.rEpoch
    ensures l.held.Keys <= Keys(b.processed)
    ensures multiset(TagsOf(b.log)) == multiset(l.out) + multiset(HeldTags(b.processed, l.held, b.rEpoch)) + lost'
    ensures lost' == multiset{} <==> lost == multiset{} && FitIn(l.s.processed, Due(l.s, auth))
  {
    var u := Due(l.s, auth);
    DueIsProcessed(l.s, auth, width);
    LogGrows(l.s.log, Entries(u, l.s.rEpoch));
    var more := FilledHolds(l.s.processed, u, l.held, l.s.rEpoch);
    lost' := LostSoFar(multiset(TagsOf(l.s.log)), multiset(l.out),
                       multiset(HeldTags(l.s.processed, l.held, l.s.rEpoch)), lost, multiset(NewTags(u, l.s.rEpoch)),
                       multiset(HeldTags(b.processed, l.held, l.s.rEpoch)), more);
  }

  lemma PopHolds(l: Ledger, b: Reader, lost: multiset<Tag>)
    requires QueuesSorted(b) && Keyed(b.unprocessed) && Keyed(b.processed) && b.processed != []
    requires multiset(TagsOf(b.log)) == multiset(l.out) + multiset(HeldTags(b.processed, l.held, b.rEpoch)) + lost
    ensures var q := b.processed;
            Balanced(Ledger(b.(processed := q[1..]), Noted(q[1..], l.held, b.rEpoch),
                            l.out + [Tag(EpochOf(l.held, b.rEpoch, q[0].data.Num()), q[0].data.Num())]), lost)
  {
    FirstTag(b.processed, l.held, b.rEpoch);
  }

  /** The queue is empty, and so are the notes. */
  lemma NothingHeld(l: Ledger, b: Reader)
    requires b.processed == [] && l.held.Keys <= Keys(b.processed)
    ensures l.held == map[] && HeldTags(b.processed, l.held, b.rEpoch) == []
  {
  }

  lemma WireHolds(l: Ledger, b: Reader, lost: multiset<Tag>, wire: seq<Rec>, inHandshake: bool, auth: Authentic,
                  width: nat)
    requires QueuesSorted(b) && Keyed(b.unprocessed) && b.processed == [] && l.held.Keys <= Keys(b.processed)
    requires multiset(TagsOf(b.log)) == multiset(l.out) + multiset(HeldTags(b.processed, l.held, b.rEpoch)) + lost
    ensures var (t, r, _) := ReadWire(b, wire, inHandshake, auth, width);
            Balanced(Ledger(t, Noted(t.processed, l.held, b.rEpoch),
                            l.out + if r.None? then []
                                    else [Tag(EpochOf(l.held, b.rEpoch, r.value.Num()), r.value.Num())]), lost)
  {
    var (t, r, _) := ReadWire(b, wire, inHandshake, auth, width);
    NothingHeld(l, b);
    WireBrings(b, wire, inHandshake, auth, width);
    ReadWireAdds(b, wire, inHandshake, auth, width);
    ReadWireSorted(b, wire, inHandshake, auth, width);
    match r {
      case None => TakenHolds(l.out, b.log, [], [], t, lost);
      case Some(v) =>
        TakenHolds(l.out, b.log, [Accepted(b.rEpoch, v.Num(), true)], [Tag(b.rEpoch, v.Num())], t, lost);
    }
  }

  /** With nothing waiting, what is processed from the wire is what is handed out. */
  lemma TakenHolds(out: seq<Tag>, log: seq<Accepted>, more: seq<Accepted>, tags: seq<Tag>, t: Reader,
                   lost: multiset<Tag>)
    requires QueuesSorted(t) && Keyed(t.unprocessed) && t.processed == [] && t.log == log + more
    requires multiset(TagsOf(log)) == multiset(out) + lost && TagsOf(more) == tags
    ensures Balanced(Ledger(t, map[], out + tags), lost)
    ensures forall held, now :: held == map[] ==> Noted(t.processed, held, now) == map[]
  {
    LogGrows(log, more);
  }

  lemma GetHolds(l: Ledger, lost: multiset<Tag>, wire: seq<Rec>, inHandshake: bool, auth: Authentic, width: nat)
    returns (lost': multiset<Tag>)
    requires Balanced(l, lost)
    ensures Balanced(AfterGet(l, wire, inHandshake, auth, width), lost')
    ensures lost' == multiset{} <==> lost == multiset{} && FitIn(l.s.processed, Due(l.s, auth))
  {
    var b := ProcessBuffered(l.s, auth, width);
    lost' := DueHolds(l, lost, b, auth, width);
    if b.processed != [] {
      PopHolds(l, b, lost');
    } else {
      WireHolds(l, b, lost', wire, inHandshake, auth, width);
    }
  }

  // ---- Over runs ----

  /** Before every call of the run, what is due finds room in the queue of processed records. */
  ghost predicate AlwaysFits(s: Reader, actions: seq<Action>, auth: Authentic, width: nat)
    requires QueuesSorted(s)
    decreases |actions|
  {
    actions == [] ||
    match actions[0]
    case Get(wire, inHandshake) =>
      GetRecordSorted(s, wire, inHandshake, auth, width);
      && FitIn(s.processed, Due(s, auth))
      && AlwaysFits(GetRecord(s, wire, inHandshake, auth, width).0, actions[1..], auth, width)
    case NewEpoch => AlwaysFits(ChangeReadEpoch(s), actions[1..], auth, width)
  }

  lemma EpochHolds(l: Ledger, lost: multiset<Tag>)
    requires Balanced(l, lost)
    ensures Balanced(l.(s := ChangeReadEpoch(l.s)), lost)
  {
    var q := l.s.processed;
    forall i | 0 <= i < |q| ensures q[i].key in l.held { assert q[i].key in Keys(q); }
    assert HeldTags(q, l.held, l.s.rEpoch) == HeldTags(q, l.held, ChangeReadEpoch(l.s).rEpoch);
  }

  /** Over any run: the records handed out, those waiting and those turned away are the records processed. */
  lemma {:induction false} TraceHolds(l: Ledger, lost: multiset<Tag>, actions: seq<Action>, auth: Authentic, width: nat)
    returns (lost': multiset<Tag>)
    requires Balanced(l, lost)
    ensures Balanced(Trace(l, actions, auth, width), lost')
    ensures lost' == multiset{} <==> lost == multiset{} && AlwaysFits(l.s, actions, auth, width)
    decreases |actions|
  {
    lost' := lost;
    if actions != [] {
      match actions[0]
      case Get(wire, inHandshake) =>
        GetRecordSorted(l.s, wire, inHandshake, auth, width);
        var now := GetHolds(l, lost, wire, inHandshake, auth, width);
        lost' := TraceHolds(AfterGet(l, wire, inHandshake, auth, width), now, actions[1..], auth, width);
      case NewEpoch =>
        EpochHolds(l, lost);
        lost' := TraceHolds(l.(s := ChangeReadEpoch(l.s)), lost, actions[1..], auth, width);
    }
  }

  // ---- In which order ----

  function RecsOf(q: seq<Item<Rec>>): set<Rec> { set i | 0 <= i < |q| :: q[i].data }

  lemma BufferRecs(q: seq<Item<Rec>>, r: Rec)
    requires Sorted(q)
    ensures RecsOf(Buffer(q, r)) == RecsOf(q) + if Accepts(q, r.Num()) then {r} else {}
  {
    if Accepts(q, r.Num()) { RecsSpliced(q, Item(r.Num(), r), Slot(q, r.Num())); }
  }

  lemma RecsSpliced(q: seq<Item<Rec>>, x: Item<Rec>, n: nat)
    requires n <= |q|
    ensures RecsOf(q[..n] + [x] + q[n..]) == RecsOf(q) + {x.data}
  {
    var q' := q[..n] + [x] + q[n..];
    forall v | v in RecsOf(q) + {x.data} ensures v in RecsOf(q') {
      if i :| 0 <= i < |q| && q[i].data == v {
        assert q'[if i < n then i else i + 1] == q[i];
      } else {
        assert q'[n] == x;
      }
    }
  }

  lemma FirstRec(q: seq<Item<Rec>>)
    requires q != []
    ensures RecsOf(q) == {q[0].data} + RecsOf(q[1..])
  {
    RecsSpliced(q[1..], q[0], 0);
    assert q[1..][..0] + [q[0]] + q[1..][0..] == q;
  }

  lemma RecsMeet(had: set<Rec>, r: Rec, others: set<Rec>, taken: bool, all: set<Rec>)
    requires had + (if taken then {r} else {}) <= all <= had + (if taken then {r} else {}) + others
    ensures had <= all <= had + ({r} + others)
    ensures taken && all == had + {r} + others ==> all == had + ({r} + others)
  {
  }

  lemma {:induction false} FilledRecs(q: seq<Item<Rec>>, u: seq<Item<Rec>>)
    requires Sorted(q) && Sorted(u) && Keyed(u)
    ensures RecsOf(q) <= RecsOf(Filled(q, u)) <= RecsOf(q) + RecsOf(u)
    ensures FitIn(q, u) ==> RecsOf(Filled(q, u)) == RecsOf(q) + RecsOf(u)
    decreases |u|
  {
    if u != [] {
      BufferRecs(q, u[0].data);
      FilledRecs(Buffer(q, u[0].data), u[1..]);
      FitCons(q, u);
      FirstRec(u);
      RecsMeet(RecsOf(q), u[0].data, RecsOf(u[1..]), Accepts(q, u[0].data.Num()), RecsOf(Filled(q, u)));
    }
  }

  /** No number among these is smaller. */
  predicate Smallest(r: Rec, among: set<Rec>) { forall v | v in among :: r.Num() <= v.Num() }

  lemma HeadIsSmallest(q: seq<Item<Rec>>)
    requires Sorted(q) && Keyed(q) && q != []
    ensures Smallest(q[0].data, RecsOf(q)) && q[0].data in RecsOf(q)
    ensures RecsOf(q[1..]) == RecsOf(q) - {q[0].data}
  {
    FirstRec(q);
  }

  /**
   * While a processed record is waiting or due, a call takes nothing from the wire and hands out the one with
   * the smallest number. Otherwise it hands out the first of the wire's records that is processed, and drops
   * those before it.
   */
  lemma BufferedComeFirst(s: Reader, wire: seq<Rec>, inHandshake: bool, auth: Authentic, width: nat)
    requires QueuesSorted(s) && Keyed(s.unprocessed) && Keyed(s.processed)
    ensures var (t, r, rest) := GetRecord(s, wire, inHandshake, auth, width);
            var u := Due(s, auth);
            if s.processed != [] || u != [] then
              && rest == wire && t.log == s.log + Entries(u, s.rEpoch)
              && r.Some? && r.value in RecsOf(s.processed) + RecsOf(u) && r.value !in RecsOf(t.processed)
              && Smallest(r.value, RecsOf(s.processed) + RecsOf(t.processed))
              && (FitIn(s.processed, u) ==> RecsOf(t.processed) == RecsOf(s.processed) + RecsOf(u) - {r.value})
            else
              && t.processed == []
              && match r
                 case None => rest == [] && t.log == s.log
                 case Some(v) => && |rest| < |wire| && wire[|wire| - |rest| - 1..] == [v] + rest
                                 && t.log == s.log + [Accepted(s.rEpoch, v.Num(), true)]
  {
    var u := Due(s, auth);
    var b := ProcessBuffered(s, auth, width);
    DueIsProcessed(s, auth, width);
    if s.processed != [] || u != [] {
      FilledKeyed(s.processed, u);
      FilledRecs(s.processed, u);
      HeadIsSmallest(b.processed);
    } else {
      assert s.log + Entries(u, s.rEpoch) == s.log;
      WireBrings(b, wire, inHandshake, auth, width);
    }
  }

  lemma {:induction false} FilledKeyed(q: seq<Item<Rec>>, u: seq<Item<Rec>>)
    requires Sorted(q) && Keyed(q)
    ensures Keyed(Filled(q, u)) && (q != [] || u != [] ==> Filled(q, u) != [])
    decreases |u|
  {
    if u != [] {
      BufferKeyed(q, u[0].data);
      FilledKeyed(Buffer(q, u[0].data), u[1..]);
    }
  }

  /** While nothing is due, the queue comes out front to back, one record a call, and nothing else changes. */
  lemma {:induction false} QueueComesOut(l: Ledger, calls: seq<Action>, auth: Authentic, width: nat)
    requires Valid(l) && !WillDrain(l.s) && |calls| <= |l.s.processed|
    requires forall i :: 0 <= i < |calls| ==> calls[i].Get?
    ensures var (t, q) := (Trace(l, calls, auth, width), l.s.processed);
            && t.out == l.out + HeldTags(q, l.held, l.s.rEpoch)[..|calls|]
            && t.s.processed == q[|calls|..] && t.s.log == l.s.log && t.s.unprocessed == l.s.unprocessed
    decreases |calls|
  {
    if calls == [] {
      assert l.out + HeldTags(l.s.processed, l.held, l.s.rEpoch)[..0] == l.out;
    } else {
      var call := calls[0];
      FirstComesOut(l, call.wire, call.inHandshake, auth, width);
      var next := AfterGet(l, call.wire, call.inHandshake, auth, width);
      QueueComesOut(next, calls[1..], auth, width);
      OneThenOthers(l.out, HeldTags(l.s.processed, l.held, l.s.rEpoch), l.s.processed, |calls|);
    }
  }

  lemma OneThenOthers<T>(out: seq<Tag>, tags: seq<Tag>, q: seq<T>, n: nat)
    requires 0 < n <= |tags| == |q|
    ensures out + [tags[0]] + tags[1..][..n - 1] == out + tags[..n]
    ensures q[1..][n - 1..] == q[n..]
  {
    assert [tags[0]] + tags[1..][..n - 1] == tags[..n];
  }

  lemma FirstComesOut(l: Ledger, wire: seq<Rec>, inHandshake: bool, auth: Authentic, width: nat)
    requires Valid(l) && !WillDrain(l.s) && l.s.processed != []
    ensures var (t, q) := (AfterGet(l, wire, inHandshake, auth, width), l.s.processed);
            var tags := HeldTags(q, l.held, l.s.rEpoch);
            && Valid(t) && !WillDrain(t.s) && t.out == l.out + [tags[0]] && t.s.processed == q[1..]
            && t.s.log == l.s.log && t.s.unprocessed == l.s.unprocessed
            && HeldTags(q[1..], t.held, t.s.rEpoch) == tags[1..]
  {
    var q := l.s.processed;
    NotedTags(q[1..], l.held, l.s.rEpoch, l.s.rEpoch);
    assert HeldTags(q[1..], l.held, l.s.rEpoch) == HeldTags(q, l.held, l.s.rEpoch)[1..];
  }

  lemma AcceptsIff(q: seq<Item<Rec>>, num: nat)
    requires Sorted(q)
    ensures Accepts(q, num) <==> |q| < 100 && forall i :: 0 <= i < |q| ==> q[i].key != num
  {
    NotHeld(q, num);
    assert num in Keys(q) <==> exists i :: 0 <= i < |q| && q[i].key == num;
  }

  lemma NextWindowPasses(s: Reader, r: Rec, width: nat)
    requires Safe(s, width)
    ensures Check(s.nextWindow, r.Num(), width)
  {
    FreshRefines(width);
    CheckIff(Fresh, {}, r.Num(), width);
  }

  /** A record of the next epoch that may arrive before the epoch begins */
  predicate MayWait(r: Rec, epoch: nat, inHandshake: bool) {
    r.epoch == epoch + 1 && (r.typ == HandshakeType || r.typ == AlertType) && inHandshake && r.length > 0
  }

  lemma QueuedIf(s: Reader, r: Rec, inHandshake: bool, auth: Authentic, width: nat)
    requires QueuesSorted(s) && Check(s.nextWindow, r.Num(), width)
    ensures FromWire(s, r, inHandshake, auth, width).0.unprocessed
            == if MayWait(r, s.rEpoch, inHandshake) then Buffer(s.unprocessed, r) else s.unprocessed
  {
  }

  /**
   * A record from the wire waits for the next epoch exactly when it is a handshake record or an alert of that
   * epoch that arrives during a handshake, is not empty, and finds room under a number of its own.
   */
  lemma WireRecordQueuedIff(s: Reader, r: Rec, inHandshake: bool, auth: Authentic, width: nat)
    requires Safe(s, width)
    ensures RecsOf(FromWire(s, r, inHandshake, auth, width).0.unprocessed)
            == RecsOf(s.unprocessed)
               + if && r.epoch == s.rEpoch + 1 && (r.typ == HandshakeType || r.typ == AlertType)
                    && inHandshake && r.length > 0
                    && |s.unprocessed| < 100
                    && (forall i :: 0 <= i < |s.unprocessed| ==> s.unprocessed[i].key != r.Num())
                 then {r} else {}
  {
    NextWindowPasses(s, r, width);
    QueuedIf(s, r, inHandshake, auth, width);
    BufferRecs(s.unprocessed, r);
    AcceptsIff(s.unprocessed, r.Num());
  }

  // ---- Nothing is lost ----

  /** The two queues share a hundred places, and what is still unprocessed has the higher numbers. */
  ghost predicate Roomy(q: seq<Item<Rec>>, u: seq<Item<Rec>>) {
    |q| + |u| <= 100 && forall i, j :: 0 <= i < |q| && 0 <= j < |u| ==> q[i].key < u[j].key
  }

  ghost predicate HasRoom(s: Reader) {
    QueuesSorted(s) && Keyed(s.unprocessed) && Keyed(s.processed) && Roomy(s.processed, s.unprocessed)
  }

  lemma RoomyFits(q: seq<Item<Rec>>, u: seq<Item<Rec>>, due: seq<Item<Rec>>)
    requires Sorted(q) && Sorted(u) && Keyed(u) && Roomy(q, u) && due <= u
    ensures FitIn(q, due)
  {
    forall i | 0 <= i < |due| ensures !Has(q, due[i].data.Num()) { assert due[i] == u[i]; }
  }

  /** Moving the head of one queue to the other keeps them apart, whatever more is dropped. */
  lemma {:induction false} FilledRoomy(q: seq<Item<Rec>>, due: seq<Item<Rec>>, later: seq<Item<Rec>>)
    requires Sorted(q) && Sorted(due + later) && Keyed(due + later) && Roomy(q, due + later)
    ensures Roomy(Filled(q, due), later)
    decreases |due|
  {
    var u := due + later;
    if due == [] {
      assert u == later;
    } else {
      assert due[1..] + later == u[1..] && due[0] == u[0];
      OneMoved(q, u);
      FilledRoomy(Buffer(q, due[0].data), due[1..], later);
    }
  }

  lemma OneMoved(q: seq<Item<Rec>>, u: seq<Item<Rec>>)
    requires Sorted(q) && Sorted(u) && Keyed(u) && Roomy(q, u) && u != []
    ensures Roomy(Buffer(q, u[0].data), u[1..])
  {
    InsertAppends(q, u[0]);
    assert u[0] == Item(u[0].data.Num(), u[0].data);
  }

  lemma {:induction false} ReadWireRoomy(s: Reader, wire: seq<Rec>, inHandshake: bool, auth: Authentic, width: nat)
    requires QueuesSorted(s) && |s.unprocessed| <= 100
    ensures |ReadWire(s, wire, inHandshake, auth, width).0.unprocessed| <= 100
    decreases |wire|
  {
    if wire != [] {
      var (s', ok) := FromWire(s, wire[0], inHandshake, auth, width);
      if !ok { ReadWireRoomy(s', wire[1..], inHandshake, auth, width); }
    }
  }

  /** What is due leaves the queue, and so does a record that fails behind it. */
  lemma DueLeaves(s: Reader, auth: Authentic, width: nat)
    requires QueuesSorted(s)
    ensures var (rest, u) := (s.unprocessed[|Due(s, auth)|..], ProcessBuffered(s, auth, width).unprocessed);
            u == rest || (rest != [] && u == rest[1..])
  {
    DrainIs(s, auth, width);
  }

  lemma RoomAfter(q: seq<Item<Rec>>, due: seq<Item<Rec>>, rest: seq<Item<Rec>>, u: seq<Item<Rec>>)
    requires Sorted(q) && Sorted(due + rest) && Keyed(due + rest) && Roomy(q, due + rest)
    requires u == rest || (rest != [] && u == rest[1..])
    ensures Roomy(Filled(q, due), u)
  {
    FilledRoomy(q, due, rest);
  }

  lemma DueKeepsRoom(s: Reader, auth: Authentic, width: nat)
    requires HasRoom(s)
    ensures HasRoom(ProcessBuffered(s, auth, width))
  {
    var due := Due(s, auth);
    var rest := s.unprocessed[|due|..];
    assert due + rest == s.unprocessed;
    DueIsProcessed(s, auth, width);
    DueLeaves(s, auth, width);
    FilledKeyed(s.processed, due);
    RoomAfter(s.processed, due, rest, ProcessBuffered(s, auth, width).unprocessed);
  }

  lemma GetKeepsRoom(s: Reader, wire: seq<Rec>, inHandshake: bool, auth: Authentic, width: nat)
    requires HasRoom(s)
    ensures FitIn(s.processed, Due(s, auth))
    ensures HasRoom(GetRecord(s, wire, inHandshake, auth, width).0)
  {
    RoomyFits(s.processed, s.unprocessed, Due(s, auth));
    DueKeepsRoom(s, auth, width);
    var b := ProcessBuffered(s, auth, width);
    if b.processed == [] {
      ReadWireAdds(b, wire, inHandshake, auth, width);
      ReadWireSorted(b, wire, inHandshake, auth, width);
      ReadWireRoomy(b, wire, inHandshake, auth, width);
      WireBrings(b, wire, inHandshake, auth, width);
    }
  }

  lemma {:induction false} RoomLasts(s: Reader, actions: seq<Action>, auth: Authentic, width: nat)
    requires HasRoom(s)
    ensures AlwaysFits(s, actions, auth, width) && HasRoom(Run(s, actions, auth, width))
    decreases |actions|
  {
    if actions != [] {
      match actions[0]
      case Get(wire, inHandshake) =>
        GetKeepsRoom(s, wire, inHandshake, auth, width);
        RoomLasts(GetRecord(s, wire, inHandshake, auth, width).0, actions[1..], auth, width);
      case NewEpoch => RoomLasts(ChangeReadEpoch(s), actions[1..], auth, width);
    }
  }

  /**
   * From the start of a connection, whatever arrives: the records handed out and those still waiting in the
   * queue are together the records processed, each as often as it was processed.
   */
  lemma NothingIsLost(actions: seq<Action>, auth: Authentic, width: nat)
    ensures var l := Trace(Opening, actions, auth, width);
            multiset(l.out) + multiset(HeldTags(l.s.processed, l.held, l.s.rEpoch)) == multiset(TagsOf(l.s.log))
  {
    var lost := TraceHolds(Opening, multiset{}, actions, auth, width);
    RoomLasts(Start, actions, auth, width);
  }

  lemma {:induction false} OnceEach(tags: seq<Tag>)
    requires forall i, j :: 0 <= i < j < |tags| ==> tags[i] != tags[j]
    ensures forall t :: multiset(tags)[t] <= 1
    decreases |tags|
  {
    if tags != [] {
      OnceEach(tags[1..]);
      assert tags == [tags[0]] + tags[1..];
      assert tags[0] !in tags[1..];
    }
  }

  lemma TwiceCounts(tags: seq<Tag>, i: nat, j: nat)
    requires i < j < |tags| && tags[i] == tags[j]
    ensures multiset(tags)[tags[i]] >= 2
  {
    assert tags == tags[..j] + tags[j..];
    assert tags[i] == tags[..j][i] && tags[j] == tags[j..][0];
    assert tags[i] in tags[..j] && tags[i] in tags[j..];
  }

  /** A run in which no record is processed twice hands none out twice. */
  lemma NothingHandedOutTwice(actions: seq<Action>, auth: Authentic, width: nat)
    requires NoRepeats(Run(Start, actions, auth, width).log)
    ensures var out := Trace(Opening, actions, auth, width).out;
            forall i, j :: 0 <= i < j < |out| ==> out[i] != out[j]
  {
    var l := Trace(Opening, actions, auth, width);
    TraceIsRun(Opening, actions, auth, width);
    NothingIsLost(actions, auth, width);
    OnceEach(TagsOf(l.s.log));
    forall i, j | 0 <= i < j < |l.out| ensures l.out[i] != l.out[j] {
      assert multiset(l.out)[l.out[i]] <= multiset(TagsOf(l.s.log))[l.out[i]];
      if l.out[i] == l.out[j] { TwiceCounts(l.out, i, j); }
    }
  }
}
