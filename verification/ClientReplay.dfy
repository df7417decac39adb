/**
 * Every handshake that ClientTrace writes down happens: for each there are results of the helpers with which
 * dtls1_connect (d1_clnt.c) reads and sends just these messages and reports completion.
 */
module ClientReplay {
  import opened ClientDriver
  import opened ClientTrace
  import opened HandshakeEvents

  const PLAIN: Helpers := Helpers(1, 1, true, false, false, false, false, false, 0, false, false)

  /** What the helpers return when an item happens. */
  function HelperFor(x: Item): Helpers {
    match x
    case GotHello(resumed) => PLAIN.(hit := resumed)
    case GotVerifyRequest(cookie) => PLAIN.(cookie := cookie)
    case FinishedIsNext(ticket) => PLAIN.(ret := 2, ticket := ticket)
    case NoCertificate => PLAIN.(anonymous := true)
    case GotCertificate(status) => PLAIN.(status := status)
    case GotDone(certReq) => PLAIN.(certReq := certReq)
    case SentKeyExchange(certReq) => PLAIN.(certReq := certReq)
    case SentFinish(ticket, delay) => PLAIN.(ticket := ticket, delay := delay)
    case _ => PLAIN
  }

  function Script(xs: seq<Item>): seq<Helpers> {
    if xs == [] then [] else [HelperFor(xs[0])] + Script(xs[1..])
  }

  /** The item happens here, and the loop goes round again. */
  predicate Happens(s: State, x: Item) {
    && s.pc !in {Before, Connect, Renegotiate, Ok}
    && Step(s, HelperFor(x)).1 == GoOn
    && Note([], s.pc, HelperFor(x)) == [x]
  }

  function Next(s: State, x: Item): State { Step(s, HelperFor(x)).0 }

  /** The loop comes from one point to the other. */
  ghost predicate Plays(w: Watched, script: seq<Helpers>, w': Watched, more: seq<Helpers>) {
    Watch(w, script) == Watch(w', more) && Loop(w.s, script) == Loop(w'.s, more)
  }

  /** These items happen, one after the other, and lead to a state, whatever came before and comes after. */
  ghost predicate Leads(s: State, xs: seq<Item>, r: State) {
    forall items, more :: Plays(Watched(s, items), Script(xs) + more, Watched(r, items + xs), more)
  }

  lemma {:induction false} ScriptOfBoth(xs: seq<Item>, ys: seq<Item>)
    ensures Script(xs + ys) == Script(xs) + Script(ys)
    decreases |xs|
  {
    if xs == [] {
      assert xs + ys == ys;
    } else {
      ScriptOfBoth(xs[1..], ys);
      assert (xs + ys)[1..] == xs[1..] + ys;
    }
  }

  lemma PlaysOn(a: Watched, x: seq<Helpers>, b: Watched, y: seq<Helpers>, c: Watched, z: seq<Helpers>)
    requires Plays(a, x, b, y) && Plays(b, y, c, z)
    ensures Plays(a, x, c, z)
  {
  }

  lemma PlaysBoth(items: seq<Item>, s: State, xs: seq<Item>, r: State, ys: seq<Item>, t: State, more: seq<Helpers>)
    requires Plays(Watched(s, items), Script(xs) + (Script(ys) + more), Watched(r, items + xs), Script(ys) + more)
    requires Plays(Watched(r, items + xs), Script(ys) + more, Watched(t, items + xs + ys), more)
    ensures Plays(Watched(s, items), Script(xs + ys) + more, Watched(t, items + (xs + ys)), more)
  {
    ScriptOfBoth(xs, ys);
    Regroup(Script(xs), Script(ys), more);
    Regroup(items, xs, ys);
    PlaysOn(Watched(s, items), Script(xs) + (Script(ys) + more), Watched(r, items + xs), Script(ys) + more,
            Watched(t, items + xs + ys), more);
  }

  lemma Regroup<T>(a: seq<T>, b: seq<T>, c: seq<T>)
    ensures a + (b + c) == a + b + c
  {
  }

  lemma LeadsOn(s: State, xs: seq<Item>, r: State, ys: seq<Item>, t: State)
    requires Leads(s, xs, r) && Leads(r, ys, t)
    ensures Leads(s, xs + ys, t)
  {
    forall items, more
      ensures Plays(Watched(s, items), Script(xs + ys) + more, Watched(t, items + (xs + ys)), more)
    {
      PlaysBoth(items, s, xs, r, ys, t, more);
    }
  }

  lemma NoneLeads(s: State)
    ensures Leads(s, [], s)
  {
    forall items, more ensures Plays(Watched(s, items), Script([]) + more, Watched(s, items + []), more) {
      assert Script([]) + more == more && items + [] == items;
    }
  }

  lemma One(s: State, x: Item)
    requires Happens(s, x)
    ensures Leads(s, [x], Next(s, x))
  {
    assert Script([x]) == [HelperFor(x)] + Script([x][1..]) == [HelperFor(x)];
    forall items, more ensures Plays(Watched(s, items), Script([x]) + more, Watched(Next(s, x), items + [x]), more) {
      PlaysOne(Watched(s, items), x, more);
    }
  }

  lemma PlaysOne(w: Watched, x: Item, more: seq<Helpers>)
    requires Happens(w.s, x)
    ensures Plays(w, [HelperFor(x)] + more, Watched(Next(w.s, x), w.items + [x]), more)
  {
    var script := [HelperFor(x)] + more;
    assert script[0] == HelperFor(x) && script[1..] == more;
    NoteAdds(w.items, w.s.pc, HelperFor(x), x);
  }

  lemma NoteAdds(items: seq<Item>, pc: Pc, h: Helpers, x: Item)
    requires pc !in {Before, Connect, Renegotiate, Ok} && Note([], pc, h) == [x]
    ensures Note(items, pc, h) == items + [x]
  {
  }

  lemma LeadsOne(s: State, xs: seq<Item>, r: State, x: Item)
    requires Leads(s, xs, r) && Happens(r, x)
    ensures Leads(s, xs + [x], Next(r, x))
  {
    One(r, x);
    LeadsOn(s, xs, r, [x], Next(r, x));
  }

  // ---- The flights, one after the other ----

  lemma {:induction false} HellosLead(s: State, n: nat) returns (r: State)
    requires s.pc == SendHello && !s.sendCookie
    ensures Leads(s, Hellos(n), r) && r.pc == GetHello
    decreases n
  {
    if n == 0 {
      r := Next(s, SentHello);
      One(s, SentHello);
    } else {
      var m := HellosLead(s, n - 1);
      r := CookieLeads(m);
      LeadsOn(s, Hellos(n - 1), m, [GotHello(false), GotVerifyRequest(true), SentHello, Flushed], r);
    }
  }

  lemma CookieLeads(s: State) returns (r: State)
    requires s.pc == GetHello
    ensures Leads(s, [GotHello(false), GotVerifyRequest(true), SentHello, Flushed], r) && r.pc == GetHello
  {
    var t := Two(s, GotHello(false), GotVerifyRequest(true));
    r := Two(t, SentHello, Flushed);
    LeadsOn(s, [GotHello(false), GotVerifyRequest(true)], t, [SentHello, Flushed], r);
    FourIs(GotHello(false), GotVerifyRequest(true), SentHello, Flushed);
  }

  lemma FourIs<T>(a: T, b: T, c: T, d: T)
    ensures [a, b] + [c, d] == [a, b, c, d]
  {
  }

  /** An item that only some handshakes have */
  lemma Maybe(s: State, there: bool, x: Item) returns (r: State)
    requires there ==> Happens(s, x)
    ensures Leads(s, if there then [x] else [], r) && r == if there then Next(s, x) else s
  {
    if there {
      One(s, x);
      r := Next(s, x);
    } else {
      NoneLeads(s);
      r := s;
    }
  }

  lemma Two(s: State, x: Item, y: Item) returns (r: State)
    requires Happens(s, x) && Happens(Next(s, x), y)
    ensures Leads(s, [x, y], r) && r == Next(Next(s, x), y)
  {
    One(s, x);
    LeadsOne(s, [x], Next(s, x), y);
    assert [x] + [y] == [x, y];
    r := Next(Next(s, x), y);
  }

  lemma Three(s: State, x: Item, y: Item, z: Item) returns (r: State)
    requires Happens(s, x) && Happens(Next(s, x), y) && Happens(Next(Next(s, x), y), z)
    ensures Leads(s, [x, y, z], r) && r == Next(Next(Next(s, x), y), z)
  {
    var t := Two(s, x, y);
    LeadsOne(s, [x, y], t, z);
    assert [x, y] + [z] == [x, y, z];
    r := Next(t, z);
  }

  lemma AbbreviatedLeads(s: State, last: Item) returns (r: State)
    requires s.pc == GetFinished && s.hit && last.SentFinish?
    ensures Leads(s, Abbreviated(last), r) && r.pc == Ok
  {
    var t := LastThreeLead(s, last);
    r := Maybe(t, !last.delay, Flushed);
    LeadsOn(s, [GotFinish, SentChange, last], t, if !last.delay then [Flushed] else [], r);
  }

  lemma LastThreeLead(s: State, last: Item) returns (r: State)
    requires s.pc == GetFinished && s.hit && last.SentFinish?
    ensures Leads(s, [GotFinish, SentChange, last], r)
    ensures r.next == Ok && r.pc == (if last.delay then Ok else Flush)
  {
    r := Three(s, GotFinish, SentChange, last);
  }

  lemma LateLeads(s: State, ticket: bool) returns (r: State)
    requires s.pc == GetHello
    ensures Leads(s, [GotHello(false), GotVerifyRequest(false), FinishedIsNext(ticket)]
                     + if ticket then [GotTicket] else [], r)
    ensures r.pc == GetFinished && r.hit
  {
    var t := Three(s, GotHello(false), GotVerifyRequest(false), FinishedIsNext(ticket));
    r := Maybe(t, ticket, GotTicket);
    LeadsOn(s, [GotHello(false), GotVerifyRequest(false), FinishedIsNext(ticket)], t,
            if ticket then [GotTicket] else [], r);
  }

  lemma CertificateLeads(s: State, p: ServerPart) returns (r: State)
    requires s.pc == GetCert && !s.hit
    ensures Leads(s, if p.anonymous then [NoCertificate] else if p.status then [GotCertificate(true), GotStatus]
                     else [GotCertificate(false)], r)
    ensures r.pc == GetKeyExch && !r.hit
  {
    if !p.anonymous && p.status {
      r := Two(s, GotCertificate(true), GotStatus);
    } else {
      var x := if p.anonymous then NoCertificate else GotCertificate(false);
      One(s, x);
      r := Next(s, x);
    }
  }

  lemma ServerLeads(s: State, p: ServerPart) returns (r: State)
    requires s.pc == GetCert && !s.hit
    ensures Leads(s, ServerFlight(p), r)
    ensures r.pc == (if p.certReq != 0 then SendCert else SendKeyExch) && !r.hit
  {
    var t := CertificateLeads(s, p);
    r := Three(t, GotKeyExchange, GotCertRequest, GotDone(p.certReq));
    LeadsOn(s, if p.anonymous then [NoCertificate] else if p.status then [GotCertificate(true), GotStatus]
               else [GotCertificate(false)], t, [GotKeyExchange, GotCertRequest, GotDone(p.certReq)], r);
  }

  /** Up to the client's ChangeCipherSpec */
  lemma KeysLead(s: State, certReq: int, sentCertReq: int) returns (r: State)
    requires s.pc == (if certReq != 0 then SendCert else SendKeyExch) && !s.hit
    ensures Leads(s, (if certReq != 0 then [SentCertificate] else []) + [SentKeyExchange(sentCertReq)]
                     + if sentCertReq == 1 then [SentVerify] else [], r)
    ensures r.pc == Change && !r.hit
  {
    var t := Maybe(s, certReq != 0, SentCertificate);
    LeadsOne(s, if certReq != 0 then [SentCertificate] else [], t, SentKeyExchange(sentCertReq));
    r := VerifyLeads(Next(t, SentKeyExchange(sentCertReq)), sentCertReq == 1);
    LeadsOn(s, (if certReq != 0 then [SentCertificate] else []) + [SentKeyExchange(sentCertReq)],
            Next(t, SentKeyExchange(sentCertReq)), if sentCertReq == 1 then [SentVerify] else [], r);
  }

  lemma VerifyLeads(s: State, there: bool) returns (r: State)
    requires s.pc == (if there then SendVerify else Change) && !s.hit
    ensures Leads(s, if there then [SentVerify] else [], r) && r.pc == Change && !r.hit
  {
    r := Maybe(s, there, SentVerify);
  }

  lemma ClientLeads(s: State, certReq: int, sentCertReq: int, last: Item) returns (r: State)
    requires s.pc == (if certReq != 0 then SendCert else SendKeyExch) && !s.hit && last.SentFinish?
    ensures Leads(s, ClientFlight(certReq, sentCertReq, last), r)
    ensures r.pc == (if last.ticket then GetTicket else GetFinished) && !r.hit
  {
    var t := KeysLead(s, certReq, sentCertReq);
    r := FinishLeads(t, last);
    LeadsOn(s, (if certReq != 0 then [SentCertificate] else []) + [SentKeyExchange(sentCertReq)]
               + if sentCertReq == 1 then [SentVerify] else [], t, [SentChange, last, Flushed], r);
  }

  lemma FinishLeads(s: State, last: Item) returns (r: State)
    requires s.pc == Change && !s.hit && last.SentFinish?
    ensures Leads(s, [SentChange, last, Flushed], r)
    ensures r.pc == (if last.ticket then GetTicket else GetFinished) && !r.hit
  {
    One(s, SentChange);
    var t := Next(s, SentChange);
    r := LastLeads(t, last);
    LeadsOn(s, [SentChange], t, [last, Flushed], r);
    assert [SentChange] + [last, Flushed] == [SentChange, last, Flushed];
  }

  lemma LastLeads(s: State, last: Item) returns (r: State)
    requires s.pc == Finish && !s.hit && last.SentFinish?
    ensures Leads(s, [last, Flushed], r)
    ensures r.pc == (if last.ticket then GetTicket else GetFinished) && !r.hit
  {
    r := Two(s, last, Flushed);
  }

  lemma EndLeads(s: State, ticket: bool) returns (r: State)
    requires s.pc == (if ticket then GetTicket else GetFinished) && !s.hit
    ensures Leads(s, (if ticket then [GotTicket] else []) + [GotFinish], r) && r.pc == Ok
  {
    var t := Maybe(s, ticket, GotTicket);
    LeadsOne(s, if ticket then [GotTicket] else [], t, GotFinish);
    r := Next(t, GotFinish);
  }

  lemma FullLeads(s: State, p: ServerPart, sentCertReq: int, last: Item) returns (r: State)
    requires s.pc == GetHello && last.SentFinish?
    ensures Leads(s, AfterHello(Full(p, sentCertReq, last)), r) && r.pc == Ok
  {
    var hello := [GotHello(false), GotVerifyRequest(false)];
    var a := Two(s, GotHello(false), GotVerifyRequest(false));
    var b := ServerLeads(a, p);
    LeadsOn(s, hello, a, ServerFlight(p), b);
    var c := ClientLeads(b, p.certReq, sentCertReq, last);
    LeadsOn(s, hello + ServerFlight(p), b, ClientFlight(p.certReq, sentCertReq, last), c);
    r := EndLeads(c, last.ticket);
    var end := if last.ticket then [GotTicket] else [];
    LeadsOn(s, hello + ServerFlight(p) + ClientFlight(p.certReq, sentCertReq, last), c, end + [GotFinish], r);
    Regroup(hello + ServerFlight(p) + ClientFlight(p.certReq, sentCertReq, last), end, [GotFinish]);
  }

  lemma CourseLeads(s: State, c: Course) returns (r: State)
    requires s.pc == GetHello && IsCourse(c)
    ensures Leads(s, AfterHello(c), r) && r.pc == Ok
  {
    match c {
      case Full(server, sentCertReq, last) => r := FullLeads(s, server, sentCertReq, last);
      case Resumed(last) =>
        One(s, GotHello(true));
        r := AbbreviatedLeads(Next(s, GotHello(true)), last);
        LeadsOn(s, [GotHello(true)], Next(s, GotHello(true)), Abbreviated(last), r);
      case ResumedLate(ticket, last) =>
        var t := LateLeads(s, ticket);
        r := AbbreviatedLeads(t, last);
        LeadsOn(s, [GotHello(false), GotVerifyRequest(false), FinishedIsNext(ticket)]
                   + if ticket then [GotTicket] else [], t, Abbreviated(last), r);
    }
  }

  /** A run whose last call reports completion, with just these items since SSL_CB_HANDSHAKE_START. */
  ghost predicate Completes(acts: seq<Act>, script: seq<Helpers>, items: seq<Item>) {
    && OneCall(Run(INITIAL, acts), script).1
    && WatchAct(WatchRun(OPENING, acts), Call(script)).items == items
  }

  lemma HandshakeHappens(n: nat, c: Course) returns (script: seq<Helpers>)
    requires IsCourse(c)
    ensures Completes([], script, Hellos(n) + AfterHello(c))
  {
    var items := Hellos(n) + AfterHello(c);
    var first := Step(INITIAL, PLAIN).0;
    var s := HellosLead(first, n);
    var r := CourseLeads(s, c);
    LeadsOn(first, Hellos(n), s, AfterHello(c), r);
    script := [PLAIN] + (Script(items) + [PLAIN]);
    PlayedCompletes(first, items, r, script);
  }

  lemma PlayedCompletes(first: State, items: seq<Item>, r: State, script: seq<Helpers>)
    requires first == Step(INITIAL, PLAIN).0 && Leads(first, items, r) && r.pc == Ok
    requires script == [PLAIN] + (Script(items) + [PLAIN])
    ensures Completes([], script, items)
  {
    assert script[0] == PLAIN && script[1..] == Script(items) + [PLAIN];
    assert Plays(Watched(first, []), Script(items) + [PLAIN], Watched(r, [] + items), [PLAIN]);
    assert [] + items == items;
  }

  /**
   * What a completed handshake has read and sent is one of the protocol's handshakes, and each of those is what
   * some run reads and sends that completes.
   */
  lemma CompletedIffHandshake(items: seq<Item>)
    ensures IsHandshake(items) <==> exists acts, script :: Completes(acts, script, items)
  {
    if IsHandshake(items) {
      var n, c :| IsCourse(c) && items == Hellos(n) + AfterHello(c);
      var script := HandshakeHappens(n, c);
    }
    if acts, script :| Completes(acts, script, items) { DoneIsHandshake(acts, script); }
  }
}
