/**
 * Every handshake that ServerTrace writes down happens: for each there are results of the helpers with which
 * dtls1_accept (d1_srvr.c) reads and sends just these messages and reports completion.
 */
module ServerReplay {
  import opened HandshakeEvents
  import opened ServerDriver
  import opened ServerTrace

  const PLAIN: Helpers := Helpers(1, 1, true, true, false, false, false, false, false, false, false)

  /** What the helpers return when an item happens. */
  function HelperFor(x: Item): Helpers {
    match x
    case GotHello(resumed, verify) => PLAIN.(hit := resumed, cookies := verify)
    case SentHello(ticket) => PLAIN.(ticket := ticket)
    case NoCertificate => PLAIN.(anonymous := true)
    case SentCertificate(status) => PLAIN.(status := status)
    case KeyExchange(sent) => PLAIN.(needed := sent)
    case CertRequest(sent) => PLAIN.(needed := sent)
    case GotSecondHello => PLAIN.(ret := 2)
    case GotKeyExchange(verify) => PLAIN.(ret := if verify then 1 else 2)
    case GotFinish(ticket) => PLAIN.(ticket := ticket)
    case _ => PLAIN
  }

  function Script(xs: seq<Item>): seq<Helpers> {
    if xs == [] then [] else [HelperFor(xs[0])] + Script(xs[1..])
  }

  /** The item happens here, and the loop goes round again. */
  predicate Happens(s: State, x: Item) {
    && s.pc !in {Before, Accept, Renegotiate, HelloRequestSent, Ok}
    && Step(s, HelperFor(x)).1 == GoOn
    && Note([], s.pc, HelperFor(x)) == [x]
  }

  function Next(s: State, x: Item): State { Step(s, HelperFor(x)).0 }

  /** The loop comes from one point to the other. */
  ghost predicate Plays(w: Watched, script: seq<Helpers>, w': Watched, more: seq<Helpers>) {
    Watch(w, script) == Watch(w', more) && Loop(w.s, script) == Loop(w'.s, more)
  }

  /** These items happen, one after the other, and lead to a state, whatever came before and comes after. */
  ghost predicate Leads(s: State, xs: seq<Item>, r: State) {
    forall items, more :: Plays(Watched(s, items), Script(xs) + more, Watched(r, items + xs), more)
  }

  lemma {:induction false} ScriptOfBoth(xs: seq<Item>, ys: seq<Item>)
    ensures Script(xs + ys) == Script(xs) + Script(ys)
    decreases |xs|
  {
    if xs == [] {
      assert xs + ys == ys;
    } else {
      ScriptOfBoth(xs[1..], ys);
      assert (xs + ys)[1..] == xs[1..] + ys;
    }
  }

  lemma PlaysOn(a: Watched, x: seq<Helpers>, b: Watched, y: seq<Helpers>, c: Watched, z: seq<Helpers>)
    requires Plays(a, x, b, y) && Plays(b, y, c, z)
    ensures Plays(a, x, c, z)
  {
  }

  lemma PlaysBoth(items: seq<Item>, s: State, xs: seq<Item>, r: State, ys: seq<Item>, t: State, more: seq<Helpers>)
    requires Plays(Watched(s, items), Script(xs) + (Script(ys) + more), Watched(r, items + xs), Script(ys) + more)
    requires Plays(Watched(r, items + xs), Script(ys) + more, Watched(t, items + xs + ys), more)
    ensures Plays(Watched(s, items), Script(xs + ys) + more, Watched(t, items + (xs + ys)), more)
  {
    ScriptOfBoth(xs, ys);
    Regroup(Script(xs), Script(ys), more);
    Regroup(items, xs, ys);
    PlaysOn(Watched(s, items), Script(xs) + (Script(ys) + more), Watched(r, items + xs), Script(ys) + more,
            Watched(t, items + xs + ys), more);
  }

  lemma Regroup<T>(a: seq<T>, b: seq<T>, c: seq<T>)
    ensures a + (b + c) == a + b + c
  {
  }

  lemma LeadsOn(s: State, xs: seq<Item>, r: State, ys: seq<Item>, t: State)
    requires Leads(s, xs, r) && Leads(r, ys, t)
    ensures Leads(s, xs + ys, t)
  {
    forall items, more
      ensures Plays(Watched(s, items), Script(xs + ys) + more, Watched(t, items + (xs + ys)), more)
    {
      PlaysBoth(items, s, xs, r, ys, t, more);
    }
  }

  lemma NoneLeads(s: State)
    ensures Leads(s, [], s)
  {
    forall items, more ensures Plays(Watched(s, items), Script([]) + more, Watched(s, items + []), more) {
      assert Script([]) + more == more && items + [] == items;
    }
  }

  lemma One(s: State, x: Item)
    requires Happens(s, x)
    ensures Leads(s, [x], Next(s, x))
  {
    assert Script([x]) == [HelperFor(x)] + Script([x][1..]) == [HelperFor(x)];
    forall items, more ensures Plays(Watched(s, items), Script([x]) + more, Watched(Next(s, x), items + [x]), more) {
      PlaysOne(Watched(s, items), x, more);
    }
  }

  lemma PlaysOne(w: Watched, x: Item, more: seq<Helpers>)
    requires Happens(w.s, x)
    ensures Plays(w, [HelperFor(x)] + more, Watched(Next(w.s, x), w.items + [x]), more)
  {
    var script := [HelperFor(x)] + more;
    assert script[0] == HelperFor(x) && script[1..] == more;
    NoteAdds(w.items, w.s.pc, HelperFor(x), x);
  }

  lemma NoteAdds(items: seq<Item>, pc: Pc, h: Helpers, x: Item)
    requires pc !in {Before, Accept, Renegotiate, HelloRequestSent, Ok} && Note([], pc, h) == [x]
    ensures Note(items, pc, h) == items + [x]
  {
  }

  lemma LeadsOne(s: State, xs: seq<Item>, r: State, x: Item)
    requires Leads(s, xs, r) && Happens(r, x)
    ensures Leads(s, xs + [x], Next(r, x))
  {
    One(r, x);
    LeadsOn(s, xs, r, [x], Next(r, x));
  }

  // ---- The flights, one after the other ----

  lemma FourIs<T>(a: T, b: T, c: T, d: T)
    ensures [a, b] + [c, d] == [a, b, c, d]
  {
  }

  /** An item that only some handshakes have */
  lemma Maybe(s: State, there: bool, x: Item) returns (r: State)
    requires there ==> Happens(s, x)
    ensures Leads(s, if there then [x] else [], r) && r == if there then Next(s, x) else s
  {
    if there {
      One(s, x);
      r := Next(s, x);
    } else {
      NoneLeads(s);
      r := s;
    }
  }

  lemma Two(s: State, x: Item, y: Item) returns (r: State)
    requires Happens(s, x) && Happens(Next(s, x), y)
    ensures Leads(s, [x, y], r) && r == Next(Next(s, x), y)
  {
    One(s, x);
    LeadsOne(s, [x], Next(s, x), y);
    assert [x] + [y] == [x, y];
    r := Next(Next(s, x), y);
  }

  lemma Three(s: State, x: Item, y: Item, z: Item) returns (r: State)
    requires Happens(s, x) && Happens(Next(s, x), y) && Happens(Next(Next(s, x), y), z)
    ensures Leads(s, [x, y, z], r) && r == Next(Next(Next(s, x), y), z)
  {
    var t := Two(s, x, y);
    LeadsOne(s, [x, y], t, z);
    assert [x, y] + [z] == [x, y, z];
    r := Next(t, z);
  }

  lemma {:induction false} RoundsLead(s: State, rounds: seq<Round>) returns (r: State)
    requires s.pc == GetHello
    ensures Leads(s, Rounds(rounds), r) && r.pc == GetHello
    decreases |rounds|
  {
    if rounds == [] {
      NoneLeads(s);
      r := s;
    } else {
      var last := rounds[|rounds| - 1];
      var t := RoundsLead(s, rounds[..|rounds| - 1]);
      match last {
        case Verify(resumed) => r := VerifyLeads(t, resumed);
        case Again(o) => r := AgainLeads(t, o);
      }
      LeadsOn(s, Rounds(rounds[..|rounds| - 1]), t, RoundItems(last), r);
    }
  }

  lemma VerifyLeads(s: State, resumed: bool) returns (r: State)
    requires s.pc == GetHello
    ensures Leads(s, [GotHello(resumed, true), SentVerifyRequest, Flushed], r) && r.pc == GetHello
  {
    r := Three(s, GotHello(resumed, true), SentVerifyRequest, Flushed);
  }

  lemma AgainLeads(s: State, o: Offer) returns (r: State)
    requires s.pc == GetHello
    ensures Leads(s, Offered(o) + [GotSecondHello], r) && r.pc == GetHello
  {
    var t := OfferLeads(s, o);
    LeadsOne(s, Offered(o), t, GotSecondHello);
    r := Next(t, GotSecondHello);
  }

  lemma OfferLeads(s: State, o: Offer) returns (r: State)
    requires s.pc == GetHello
    ensures Leads(s, Offered(o), r) && r.pc == GetCert && !r.hit && r.renegotiate == 2
  {
    var a := GreetingLeads(s, o.ticket);
    var b := CertificateLeads(a, o);
    LeadsOn(s, [GotHello(false, false), SentHello(o.ticket)], a, CertificatePart(o), b);
    r := RequestsLead(b, o);
    LeadsOn(s, [GotHello(false, false), SentHello(o.ticket)] + CertificatePart(o), b,
            [KeyExchange(o.keyExchange), CertRequest(o.certRequest), SentDone, Flushed], r);
  }

  lemma GreetingLeads(s: State, ticket: bool) returns (r: State)
    requires s.pc == GetHello
    ensures Leads(s, [GotHello(false, false), SentHello(ticket)], r)
    ensures r.pc == SendCert && !r.hit && r.renegotiate == 2
  {
    r := Two(s, GotHello(false, false), SentHello(ticket));
  }

  lemma CertificateLeads(s: State, o: Offer) returns (r: State)
    requires s.pc == SendCert && !s.hit && s.renegotiate == 2
    ensures Leads(s, CertificatePart(o), r) && r.pc == SendKeyExch && !r.hit && r.renegotiate == 2
  {
    if !o.anonymous && o.status {
      r := Two(s, SentCertificate(true), SentStatus);
    } else {
      var x := if o.anonymous then NoCertificate else SentCertificate(false);
      One(s, x);
      r := Next(s, x);
    }
  }

  lemma RequestsLead(s: State, o: Offer) returns (r: State)
    requires s.pc == SendKeyExch && !s.hit && s.renegotiate == 2
    ensures Leads(s, [KeyExchange(o.keyExchange), CertRequest(o.certRequest), SentDone, Flushed], r)
    ensures r.pc == GetCert && !r.hit && r.renegotiate == 2
  {
    var t := AsksLead(s, o);
    r := DoneLeads(t);
    LeadsOn(s, [KeyExchange(o.keyExchange), CertRequest(o.certRequest)], t, [SentDone, Flushed], r);
    FourIs(KeyExchange(o.keyExchange), CertRequest(o.certRequest), SentDone, Flushed);
  }

  lemma AsksLead(s: State, o: Offer) returns (r: State)
    requires s.pc == SendKeyExch && !s.hit && s.renegotiate == 2
    ensures Leads(s, [KeyExchange(o.keyExchange), CertRequest(o.certRequest)], r)
    ensures r.pc == SendDone && !r.hit && r.renegotiate == 2
  {
    r := Two(s, KeyExchange(o.keyExchange), CertRequest(o.certRequest));
  }

  lemma DoneLeads(s: State) returns (r: State)
    requires s.pc == SendDone && !s.hit && s.renegotiate == 2
    ensures Leads(s, [SentDone, Flushed], r) && r.pc == GetCert && !r.hit && r.renegotiate == 2
  {
    r := Two(s, SentDone, Flushed);
  }

  /** The server's last flight, from its ticket on */
  lemma ClosingLeads(s: State, ticket: bool) returns (r: State)
    requires s.pc == (if ticket then SendTicket else Change) && s.renegotiate == 2
    ensures Leads(s, (if ticket then [SentTicket] else []) + [SentChange, SentFinish, Flushed], r)
    ensures r.pc == (if s.hit then GetFinished else Ok) && r.hit == s.hit && r.renegotiate == 2
  {
    var t := TicketLeads(s, ticket);
    r := ChangeLeads(t);
    LeadsOn(s, if ticket then [SentTicket] else [], t, [SentChange, SentFinish, Flushed], r);
  }

  lemma TicketLeads(s: State, ticket: bool) returns (r: State)
    requires s.pc == (if ticket then SendTicket else Change) && s.renegotiate == 2
    ensures Leads(s, if ticket then [SentTicket] else [], r)
    ensures r.pc == Change && r.hit == s.hit && r.renegotiate == 2
  {
    r := Maybe(s, ticket, SentTicket);
  }

  lemma ChangeLeads(s: State) returns (r: State)
    requires s.pc == Change && s.renegotiate == 2
    ensures Leads(s, [SentChange, SentFinish, Flushed], r)
    ensures r.pc == (if s.hit then GetFinished else Ok) && r.hit == s.hit && r.renegotiate == 2
  {
    One(s, SentChange);
    var t := Next(s, SentChange);
    r := FinishLeads(t);
    LeadsOn(s, [SentChange], t, [SentFinish, Flushed], r);
    assert [SentChange] + [SentFinish, Flushed] == [SentChange, SentFinish, Flushed];
  }

  lemma FinishLeads(s: State) returns (r: State)
    requires s.pc == Finish && s.renegotiate == 2
    ensures Leads(s, [SentFinish, Flushed], r)
    ensures r.pc == (if s.hit then GetFinished else Ok) && r.hit == s.hit && r.renegotiate == 2
  {
    r := Two(s, SentFinish, Flushed);
  }

  lemma ResumedLeads(s: State, ticket: bool, lateTicket: bool) returns (r: State)
    requires s.pc == GetHello
    ensures Leads(s, FromHello(Resumed(ticket, lateTicket)), r) && r.pc == Ok && r.renegotiate == 2
  {
    var hello := [GotHello(true, false), SentHello(ticket)];
    var maybe := if ticket then [SentTicket] else [];
    var a := Two(s, GotHello(true, false), SentHello(ticket));
    var b := ClosingLeads(a, ticket);
    LeadsOn(s, hello, a, maybe + [SentChange, SentFinish, Flushed], b);
    LeadsOne(s, hello + (maybe + [SentChange, SentFinish, Flushed]), b, GotFinish(lateTicket));
    r := Next(b, GotFinish(lateTicket));
    assert hello + (maybe + [SentChange, SentFinish, Flushed]) + [GotFinish(lateTicket)]
        == hello + maybe + [SentChange, SentFinish, Flushed, GotFinish(lateTicket)];
  }

  /** The client's flight of a full handshake */
  lemma ClientLeads(s: State, verify: bool, ticket: bool) returns (r: State)
    requires s.pc == GetCert && !s.hit && s.renegotiate == 2
    ensures Leads(s, [GotCertificate, GotKeyExchange(verify)] + (if verify then [GotVerify] else [])
                     + [GotFinish(ticket)], r)
    ensures r.pc == (if ticket then SendTicket else Change) && !r.hit && r.renegotiate == 2
  {
    var a := KeysLead(s, verify);
    var b := SignedLeads(a, verify);
    LeadsOn(s, [GotCertificate, GotKeyExchange(verify)], a, if verify then [GotVerify] else [], b);
    r := FinishedLeads(b, ticket);
    LeadsOn(s, [GotCertificate, GotKeyExchange(verify)] + (if verify then [GotVerify] else []), b,
            [GotFinish(ticket)], r);
  }

  lemma KeysLead(s: State, verify: bool) returns (r: State)
    requires s.pc == GetCert && !s.hit && s.renegotiate == 2
    ensures Leads(s, [GotCertificate, GotKeyExchange(verify)], r)
    ensures r.pc == (if verify then GetVerify else GetFinished) && !r.hit && r.renegotiate == 2
  {
    r := Two(s, GotCertificate, GotKeyExchange(verify));
  }

  lemma SignedLeads(s: State, verify: bool) returns (r: State)
    requires s.pc == (if verify then GetVerify else GetFinished) && !s.hit && s.renegotiate == 2
    ensures Leads(s, if verify then [GotVerify] else [], r) && r.pc == GetFinished && !r.hit && r.renegotiate == 2
  {
    r := Maybe(s, verify, GotVerify);
  }

  lemma FinishedLeads(s: State, ticket: bool) returns (r: State)
    requires s.pc == GetFinished && !s.hit && s.renegotiate == 2
    ensures Leads(s, [GotFinish(ticket)], r)
    ensures r.pc == (if ticket then SendTicket else Change) && !r.hit && r.renegotiate == 2
  {
    One(s, GotFinish(ticket));
    r := Next(s, GotFinish(ticket));
  }

  lemma FullLeads(s: State, o: Offer, verify: bool, ticket: bool) returns (r: State)
    requires s.pc == GetHello
    ensures Leads(s, FromHello(Full(o, verify, ticket)), r) && r.pc == Ok && r.renegotiate == 2
  {
    var a := OfferLeads(s, o);
    var b := ClientLeads(a, verify, ticket);
    r := ClosingLeads(b, ticket);
    var keys := [GotCertificate, GotKeyExchange(verify)];
    var signed := if verify then [GotVerify] else [];
    var maybe := if ticket then [SentTicket] else [];
    LeadsOn(s, Offered(o), a, keys + signed + [GotFinish(ticket)], b);
    LeadsOn(s, Offered(o) + (keys + signed + [GotFinish(ticket)]), b, maybe + [SentChange, SentFinish, Flushed], r);
    Flatten(Offered(o), keys, signed, [GotFinish(ticket)], maybe, [SentChange, SentFinish, Flushed]);
  }

  lemma Flatten<T>(a: seq<T>, b: seq<T>, c: seq<T>, d: seq<T>, e: seq<T>, f: seq<T>)
    ensures a + (b + c + d) + (e + f) == a + b + c + d + e + f
  {
  }

  lemma CourseLeads(s: State, c: Course) returns (r: State)
    requires s.pc == GetHello
    ensures Leads(s, FromHello(c), r) && r.pc == Ok && r.renegotiate == 2
  {
    match c {
      case Resumed(ticket, lateTicket) => r := ResumedLeads(s, ticket, lateTicket);
      case Full(o, verify, ticket) => r := FullLeads(s, o, verify, ticket);
    }
  }

  /** A run whose last call reports completion, with just these items since SSL_CB_HANDSHAKE_START. */
  ghost predicate Completes(acts: seq<Act>, script: seq<Helpers>, items: seq<Item>) {
    && OneCall(Run(INITIAL, acts), script).1
    && WatchAct(WatchRun(OPENING, acts), Call(script)).items == items
  }

  lemma HandshakeHappens(rounds: seq<Round>, c: Course) returns (script: seq<Helpers>)
    ensures Completes([], script, Rounds(rounds) + FromHello(c))
  {
    var items := Rounds(rounds) + FromHello(c);
    var first := Step(INITIAL, PLAIN).0;
    var s := RoundsLead(first, rounds);
    var r := CourseLeads(s, c);
    LeadsOn(first, Rounds(rounds), s, FromHello(c), r);
    script := [PLAIN] + (Script(items) + [PLAIN]);
    PlayedCompletes(first, items, r, script);
  }

  lemma PlayedCompletes(first: State, items: seq<Item>, r: State, script: seq<Helpers>)
    requires first == Step(INITIAL, PLAIN).0 && Leads(first, items, r) && r.pc == Ok && r.renegotiate == 2
    requires script == [PLAIN] + (Script(items) + [PLAIN])
    ensures Completes([], script, items)
  {
    assert script[0] == PLAIN && script[1..] == Script(items) + [PLAIN];
    assert Plays(Watched(first, []), Script(items) + [PLAIN], Watched(r, [] + items), [PLAIN]);
    assert [] + items == items;
  }

  /**
   * What a completed handshake has read and sent is one of the protocol's handshakes, and each of those is what
   * some run reads and sends that completes.
   */
  lemma CompletedIffHandshake(items: seq<Item>)
    ensures IsHandshake(items) <==> exists acts, script :: Completes(acts, script, items)
  {
    if IsHandshake(items) {
      var rounds, c :| items == Rounds(rounds) + FromHello(c);
      var script := HandshakeHappens(rounds, c);
    }
    if acts, script :| Completes(acts, script, items) { DoneIsHandshake(acts, script); }
  }
}
