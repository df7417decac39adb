/**
 * The server's handshake driver (dtls1_accept in d1_srvr.c), not listening: a loop over states in which every
 * message helper may succeed, fail, or have to be tried again by a later call. States that differ only in
 * how far a message has got are one.
 */
module ServerDriver {
  import opened HandshakeEvents

  datatype Pc =
    | Before | Accept | Renegotiate
    | SendHelloRequest | HelloRequestSent
    | GetHello | SendHelloVerify | SendHello | SendCert | SendCertStatus | SendKeyExch | SendCertReq | SendDone
    | GetCert | GetKeyExch | GetVerify | GetFinished | SendTicket | Change | Finish | Flush | Ok

  /** What the helpers and the environment do in one iteration. */
  datatype Helpers = Helpers(
    ret: int,           // result of the state's message helper, or of the flush
    ret2: int,          // result of ssl3_get_client_certificate
    sound: bool,        // set-up, or key derivation before the ChangeCipherSpec, succeeds
    sound2: bool,       // the change of cipher state behind it succeeds
    hit: bool,          // what ssl3_get_client_hello leaves in s->hit
    cookies: bool,      // SSL_OP_COOKIE_EXCHANGE
    ticket: bool, anonymous: bool, status: bool,
    needed: bool,       // a ServerKeyExchange, or a CertificateRequest, is to be sent
    retry: bool)        // BIO_should_retry

  /** `events` are those since the last SSL_CB_HANDSHAKE_START. */
  datatype State = State(
    pc: Pc,
    next: Pc,                 // s3->tmp.next_state
    hit: bool,
    renegotiate: nat,         // 1: asked for, 2: a handshake is on
    events: seq<Event>,
    hitKept: bool)            // no call has cleared `hit` while the rest of the state stayed

  const INITIAL: State := State(Before, Before, false, 0, [], true)

  /** How a call begins: SSL_clear, which gives up half-way while renegotiating. */
  function Enter(s: State): State {
    if s.pc != Ok && s.pc != Before then s
    else if s.renegotiate != 0 then s.(hit := false, hitKept := false)
    else s.(hit := false, pc := Before)
  }

  function Step(s: State, h: Helpers): (State, Outcome) {
    match s.pc
    case Before => Start(s, h)
    case Accept => Start(s, h)
    case Renegotiate => Start(s.(renegotiate := 1), h)
    case SendHelloRequest => After(s, h, s.(next := HelloRequestSent, pc := Flush))
    case HelloRequestSent => (s.(pc := Ok), GoOn)
    case GetHello =>
      var s1 := s.(hit := h.hit);
      After(s1, h, s1.(pc := if h.ret == 1 && h.cookies then SendHelloVerify else SendHello))
    case SendHelloVerify => After(s, h, s.(pc := Flush, next := GetHello))
    case SendHello =>
      var s1 := s.(renegotiate := 2);
      After(s1, h, s1.(pc := if !s.hit then SendCert else if h.ticket then SendTicket else Change))
    case SendCert =>
      if h.anonymous then (s.(pc := SendKeyExch), GoOn)
      else After(s, h, s.(pc := if h.status then SendCertStatus else SendKeyExch))
    case SendCertStatus => After(s, h, s.(pc := SendKeyExch))
    case SendKeyExch => if h.needed && h.ret <= 0 then (s, Leave) else (s.(pc := SendCertReq), GoOn)
    case SendCertReq => if h.needed && h.ret <= 0 then (s, Leave) else (s.(pc := SendDone), GoOn)
    case SendDone => After(s, h, s.(next := GetCert, pc := Flush))
    case GetCert =>
      if h.ret <= 0 then (s, Leave)
      else if h.ret == 2 then (s.(pc := GetHello), GoOn)
      else if h.ret2 <= 0 then (s, Leave)
      else (s.(pc := GetKeyExch), GoOn)
    case GetKeyExch => After(s, h, s.(pc := if h.ret == 2 then GetFinished else GetVerify))
    case GetVerify => After(s, h, s.(pc := GetFinished))
    case GetFinished =>
      After(s, h, s.(events := s.events + [PeerFinished],
                     pc := if s.hit then Ok else if h.ticket then SendTicket else Change))
    case SendTicket => After(s, h, s.(pc := Change))
    case Change =>
      if !h.sound || h.ret <= 0 then (s, Leave)
      else (s.(pc := Finish, events := s.events + [SentCcs]), if h.sound2 then GoOn else Leave)
    case Finish =>
      After(s, h, s.(events := s.events + [SentFinished], pc := Flush, next := if s.hit then GetFinished else Ok))
    case Flush =>
      if h.ret > 0 then (s.(pc := s.next), GoOn) else (if h.retry then s else s.(pc := s.next), Leave)
    case Ok => if s.renegotiate == 2 then (s.(renegotiate := 0), Done) else (s, Leave)
  }

  function Start(s: State, h: Helpers): (State, Outcome) {
    var s1 := s.(events := [], hitKept := true);
    if !h.sound then (s1, Leave) else (s1.(pc := if s.pc != Renegotiate then GetHello else SendHelloRequest), GoOn)
  }

  /** The usual case: the helper succeeds, or the call returns to try again from the same state. */
  function After(s: State, h: Helpers, then_: State): (State, Outcome) {
    if h.ret <= 0 then (s, Leave) else (then_, GoOn)
  }

  /** The loop; it may also return between iterations, as when a debugging flush fails. */
  function Loop(s: State, script: seq<Helpers>): (State, bool)
    decreases |script|
  {
    if script == [] then (s, false) else
    var (s1, outcome) := Step(s, script[0]);
    if outcome == GoOn then Loop(s1, script[1..]) else (s1, outcome == Done)
  }

  /** dtls1_accept: the state it leaves, and whether it reported SSL_CB_HANDSHAKE_DONE. */
  function OneCall(s: State, script: seq<Helpers>): (State, bool) { Loop(Enter(s), script) }

  /** Between calls a finished connection may be told to renegotiate, or be sent a ClientHello. */
  datatype Act = Call(script: seq<Helpers>) | AskRenegotiation(move: bool) | HelloArrives

  function Perform(s: State, act: Act): State {
    match act
    case Call(script) => OneCall(s, script).0
    case AskRenegotiation(move) =>
      if s.pc != Ok then s
      else s.(renegotiate := if s.renegotiate == 0 then 1 else s.renegotiate, pc := if move then Renegotiate else Ok)
    case HelloArrives => if s.pc != Ok then s else s.(renegotiate := 1, pc := Accept)
  }

  function Run(s: State, acts: seq<Act>): State
    decreases |acts|
  {
    if acts == [] then s else Run(Perform(s, acts[0]), acts[1..])
  }

  // ---- The invariant ----

  /** Only a HelloRequest is being sent. */
  predicate OnlyHelloRequest(s: State) {
    && s.renegotiate == 1
    && (s.pc in {SendHelloRequest, HelloRequestSent} || (s.pc == Flush && s.next == HelloRequestSent))
  }

  /** What the events say at each state, for a handshake that resumes a session or not. */
  predicate EventsAt(pc: Pc, next: Pc, hit: bool, events: seq<Event>) {
    match pc
    case GetHello => events == []
    case SendHelloVerify => events == []
    case SendHello => events == []
    case GetFinished => events == if hit then [SentCcs, SentFinished] else []
    case SendTicket => events == if hit then [] else [PeerFinished]
    case Change => events == if hit then [] else [PeerFinished]
    case Finish => events == if hit then [SentCcs] else [PeerFinished, SentCcs]
    case Flush =>
      || (next == GetHello && events == [])
      || (next == GetCert && !hit && events == [])
      || (next == GetFinished && hit && events == [SentCcs, SentFinished])
      || (next == Ok && !hit && events == SECOND)
    case Ok => events == ServerOrder(hit)
    case SendHelloRequest => false
    case HelloRequestSent => false
    case Before => true
    case Accept => true
    case Renegotiate => true
    case _ => !hit && events == []
  }

  predicate Complete(s: State) { s.events == FIRST || s.events == SECOND }

  predicate Inv(s: State) {
    || s.pc in {Before, Accept, Renegotiate}
    || OnlyHelloRequest(s)
    || (s.hitKept && EventsAt(s.pc, s.next, s.hit, s.events))
    || (s.pc == Ok && (s.renegotiate == 2 ==> !s.hitKept && !s.hit && Complete(s)))
  }

  lemma EnterKeepsInv(s: State)
    requires Inv(s)
    ensures Inv(Enter(s))
  {
  }

  lemma SilentStep(s: State, h: Helpers)
    requires Inv(s) && s.pc !in {Change, Finish, GetFinished, Flush, Ok}
    ensures Inv(Step(s, h).0) && Step(s, h).1 != Done
  {
  }

  lemma ChangeStep(s: State, h: Helpers)
    requires Inv(s) && s.pc == Change
    ensures Inv(Step(s, h).0) && Step(s, h).1 != Done
  {
    assert [PeerFinished] + [SentCcs] == [PeerFinished, SentCcs];
    assert [] + [SentCcs] == [SentCcs];
  }

  lemma FinishStep(s: State, h: Helpers)
    requires Inv(s) && s.pc == Finish
    ensures Inv(Step(s, h).0) && Step(s, h).1 != Done
  {
    assert [PeerFinished, SentCcs] + [SentFinished] == SECOND;
    assert [SentCcs] + [SentFinished] == [SentCcs, SentFinished];
  }

  lemma PeerStep(s: State, h: Helpers)
    requires Inv(s) && s.pc == GetFinished
    ensures Inv(Step(s, h).0) && Step(s, h).1 != Done
  {
    assert [SentCcs, SentFinished] + [PeerFinished] == FIRST;
    assert [] + [PeerFinished] == [PeerFinished];
  }

  lemma LateStep(s: State, h: Helpers)
    requires Inv(s) && s.pc in {Flush, Ok}
    ensures Inv(Step(s, h).0)
    ensures Step(s, h).1 == Done ==> s.pc == Ok && s.renegotiate == 2 && Step(s, h).0 == s.(renegotiate := 0)
  {
  }

  lemma StepKeepsInv(s: State, h: Helpers)
    requires Inv(s)
    ensures Inv(Step(s, h).0)
    ensures Step(s, h).1 == Done ==> s.pc == Ok && s.renegotiate == 2 && Step(s, h).0 == s.(renegotiate := 0)
  {
    match s.pc {
      case Change => ChangeStep(s, h);
      case Finish => FinishStep(s, h);
      case GetFinished => PeerStep(s, h);
      case Flush => LateStep(s, h);
      case Ok => LateStep(s, h);
      case _ => SilentStep(s, h);
    }
  }

  /** What a completed handshake leaves */
  predicate Finished(r: State) {
    r.pc == Ok && r.renegotiate == 0 && Complete(r) && (if r.hitKept then r.events == ServerOrder(r.hit) else !r.hit)
  }

  lemma {:induction false} LoopKeepsInv(s: State, script: seq<Helpers>)
    requires Inv(s)
    ensures Inv(Loop(s, script).0)
    ensures Loop(s, script).1 ==> Finished(Loop(s, script).0)
    decreases |script|
  {
    if script != [] {
      StepKeepsInv(s, script[0]);
      if Step(s, script[0]).1 == GoOn { LoopKeepsInv(Step(s, script[0]).0, script[1..]); }
    }
  }

  lemma {:induction false} RunKeepsInv(s: State, acts: seq<Act>)
    requires Inv(s)
    ensures Inv(Run(s, acts))
    decreases |acts|
  {
    if acts != [] {
      if acts[0].Call? {
        EnterKeepsInv(s);
        LoopKeepsInv(Enter(s), acts[0].script);
      }
      RunKeepsInv(Perform(s, acts[0]), acts[1..]);
    }
  }

  /** A handshake that is not already finished when the loop begins is reported with `hit` as negotiated. */
  lemma {:induction false} ReportedWithHit(s: State, script: seq<Helpers>)
    requires Inv(s) && s.pc != Ok && Loop(s, script).1
    ensures Loop(s, script).0.events == ServerOrder(Loop(s, script).0.hit)
    decreases |script|
  {
    var s1 := Step(s, script[0]).0;
    StepKeepsInv(s, script[0]);
    if s1.pc != Ok {
      ReportedWithHit(s1, script[1..]);
    } else {
      assert Loop(s1, script[1..]).0 == s1.(renegotiate := 0);
      FinishedWithHit(s, script[0]);
    }
  }

  lemma FinishedWithHit(s: State, h: Helpers)
    requires Inv(s) && s.pc != Ok && Step(s, h).0.pc == Ok && Step(s, h).0.renegotiate == 2
    ensures Step(s, h).0.events == ServerOrder(Step(s, h).0.hit)
  {
    StepKeepsInv(s, h);
    assert Step(s, h).0.hitKept == s.hitKept;
  }

  /** What a report says of the state the call found. */
  lemma ReportIff(s: State, script: seq<Helpers>)
    requires Inv(s) && OneCall(s, script).1
    ensures var r := OneCall(s, script).0;
            && Complete(r)
            && (r.events == ServerOrder(r.hit) <==> !(s.pc == Ok && s.renegotiate == 2 && s.events == FIRST))
  {
    EnterKeepsInv(s);
    LoopKeepsInv(Enter(s), script);
    if Enter(s).pc != Ok {
      ReportedWithHit(Enter(s), script);
    } else {
      assert OneCall(s, script).0 == Enter(s).(renegotiate := 0);
    }
  }

  /**
   * On every run, whatever the helpers do: when a call reports SSL_CB_HANDSHAKE_DONE, then since the last
   * SSL_CB_HANDSHAKE_START exactly one ChangeCipherSpec and after it one Finished were sent and the peer's
   * Finished was accepted. It came last exactly when `hit` says that the session is resumed, unless the call
   * found a resumed handshake finished but not yet reported: SSL_clear has then cleared `hit`.
   */
  lemma DoneIsSafe(acts: seq<Act>, script: seq<Helpers>)
    requires OneCall(Run(INITIAL, acts), script).1
    ensures var s, r := Run(INITIAL, acts), OneCall(Run(INITIAL, acts), script).0;
            && (r.events == SECOND || r.events == FIRST)
            && (r.events == ServerOrder(r.hit) <==> !(s.pc == Ok && s.renegotiate == 2 && s.events == FIRST))
  {
    RunKeepsInv(INITIAL, acts);
    ReportIff(Run(INITIAL, acts), script);
  }

  const FINE: Helpers := Helpers(1, 1, true, true, true, false, false, false, false, false, false)

  /** Helpers that succeed `n` times, resuming a session */
  function Fine(n: nat): seq<Helpers> { if n == 0 then [] else [FINE] + Fine(n - 1) }

  lemma FineStep(s: State, n: nat)
    requires n > 0 && Step(s, FINE).1 == GoOn
    ensures Loop(s, Fine(n)) == Loop(Step(s, FINE).0, Fine(n - 1))
  {
    assert Fine(n)[0] == FINE && Fine(n)[1..] == Fine(n - 1);
  }

  /** Seven iterations take a resumed handshake from its start to the peer's Finished. */
  lemma ResumedToFinish()
    ensures var r := OneCall(INITIAL, Fine(7)).0;
            r.pc == Ok && r.renegotiate == 2 && r.events == FIRST
  {
    var s := ResumedToHello();
    ResumedFromHello(s);
  }

  lemma ResumedToHello() returns (r: State)
    ensures Loop(INITIAL, Fine(7)) == Loop(r, Fine(4))
    ensures r.pc == Change && r.hit && r.renegotiate == 2 && r.events == []
  {
    r := INITIAL;
    FineStep(r, 7);
    r := Step(r, FINE).0;
    FineStep(r, 6);
    r := Step(r, FINE).0;
    FineStep(r, 5);
    r := Step(r, FINE).0;
  }

  lemma ResumedFromHello(s: State)
    requires s.pc == Change && s.hit && s.renegotiate == 2 && s.events == []
    ensures var r := Loop(s, Fine(4)).0;
            r.pc == Ok && r.renegotiate == 2 && r.events == FIRST
  {
    FineStep(s, 4);
    var r := Step(s, FINE).0;
    FineStep(r, 3);
    ResumedFromFlush(Step(r, FINE).0);
  }

  lemma ResumedFromFlush(s: State)
    requires s.pc == Flush && s.next == GetFinished && s.hit && s.renegotiate == 2
    requires s.events == [SentCcs, SentFinished]
    ensures var r := Loop(s, Fine(2)).0;
            r.pc == Ok && r.renegotiate == 2 && r.events == FIRST
  {
    FineStep(s, 2);
    FineStep(Step(s, FINE).0, 1);
  }

  /**
   * The exception occurs when a call returns between the peer's Finished and the report, as it does when the
   * flush after an iteration fails that a connection in debugging mode makes.
   */
  lemma HitLostExample() returns (acts: seq<Act>)
    ensures var (r, done) := OneCall(Run(INITIAL, acts), [FINE]);
            done && r.events == FIRST && !r.hit
  {
    acts := [Call(Fine(7))];
    assert acts[1..] == [];
    ResumedToFinish();
    assert Run(INITIAL, acts) == OneCall(INITIAL, Fine(7)).0;
  }

  /** A pass that only sends a HelloRequest never counts as a completed handshake. */
  lemma {:induction false} HelloRequestIsNotDone(s: State, script: seq<Helpers>)
    requires OnlyHelloRequest(s) || s.pc == Renegotiate || (s.pc == Ok && s.renegotiate == 1)
    ensures var (r, done) := Loop(s, script);
            !done && (OnlyHelloRequest(r) || r.pc == Renegotiate || (r.pc == Ok && r.renegotiate == 1))
    decreases |script|
  {
    if script != [] && Step(s, script[0]).1 == GoOn {
      HelloRequestIsNotDone(Step(s, script[0]).0, script[1..]);
    }
  }

  // ---- The driver ----

  class Server {
    var pc: Pc
    var next: Pc
    var hit: bool
    var renegotiate: nat
    ghost var events: seq<Event>
    ghost var hitKept: bool

    ghost function View(): State
      reads this
    {
      State(pc, next, hit, renegotiate, events, hitKept)
    }

    constructor ()
      ensures View() == INITIAL
    {
      pc, next, hit, renegotiate, events, hitKept := Before, Before, false, 0, [], true;
    }

    /** SSL_clear */
    method Clear()
      modifies this
      ensures View() == old(View()).(hit := false, hitKept := old(hitKept && renegotiate == 0),
                                     pc := if old(renegotiate) != 0 then old(pc) else Before)
    {
      hit := false;
      if renegotiate != 0 {
        hitKept := false;
        return;
      }
      pc := Before;
    }

    /** The states in which a handshake, or a HelloRequest, starts */
    method Begin(h: Helpers) returns (outcome: Outcome)
      modifies this
      ensures (View(), outcome) == Start(old(View()), h)
    {
      events, hitKept := [], true;
      if !h.sound { return Leave; }
      pc := if pc != Renegotiate then GetHello else SendHelloRequest;
      outcome := GoOn;
    }

    /** The server's first flight */
    method Hello(h: Helpers) returns (outcome: Outcome)
      requires pc in {SendHelloRequest, GetHello, SendHelloVerify, SendHello, SendCert, SendCertStatus, SendKeyExch,
                      SendCertReq, SendDone}
      modifies this
      ensures (View(), outcome) == Step(old(View()), h)
    {
      outcome := Leave;
      match pc {
        case SendHelloRequest =>
          if h.ret <= 0 { return; }
          next := HelloRequestSent;
          pc := Flush;
        case GetHello =>
          hit := h.hit;
          if h.ret <= 0 { return; }
          pc := if h.ret == 1 && h.cookies then SendHelloVerify else SendHello;
        case SendHelloVerify =>
          if h.ret <= 0 { return; }
          pc := Flush;
          next := GetHello;
        case SendHello =>
          renegotiate := 2;
          if h.ret <= 0 { return; }
          if hit {
            pc := if h.ticket then SendTicket else Change;
          } else {
            pc := SendCert;
          }
        case SendCert =>
          if !h.anonymous {
            if h.ret <= 0 { return; }
            pc := if h.status then SendCertStatus else SendKeyExch;
          } else {
            pc := SendKeyExch;
          }
        case SendCertStatus =>
          if h.ret <= 0 { return; }
          pc := SendKeyExch;
        case SendKeyExch =>
          if h.needed && h.ret <= 0 { return; }
          pc := SendCertReq;
        case SendCertReq =>
          if h.needed && h.ret <= 0 { return; }
          pc := SendDone;
        case SendDone =>
          if h.ret <= 0 { return; }
          next := GetCert;
          pc := Flush;
      }
      outcome := GoOn;
    }

    /** The client's second flight, and the server's last */
    method Keys(h: Helpers) returns (outcome: Outcome)
      requires pc in {GetCert, GetKeyExch, GetVerify, GetFinished, SendTicket, Change, Finish}
      modifies this
      ensures (View(), outcome) == Step(old(View()), h)
    {
      outcome := Leave;
      if pc == Change && !h.sound { return; }
      if h.ret <= 0 { return; }
      match pc {
        case GetCert =>
          if h.ret == 2 {
            pc := GetHello;
          } else {
            if h.ret2 <= 0 { return; }
            pc := GetKeyExch;
          }
        case GetKeyExch => pc := if h.ret == 2 then GetFinished else GetVerify;
        case GetVerify => pc := GetFinished;
        case GetFinished =>
          events := events + [PeerFinished];
          pc := if hit then Ok else if h.ticket then SendTicket else Change;
        case SendTicket => pc := Change;
        case Change =>
          events := events + [SentCcs];
          pc := Finish;
          if !h.sound2 { return; }
        case Finish =>
          events := events + [SentFinished];
          pc := Flush;
          next := if hit then GetFinished else Ok;
      }
      outcome := GoOn;
    }

    /** One iteration */
    method Iterate(h: Helpers) returns (outcome: Outcome)
      modifies this
      ensures (View(), outcome) == Step(old(View()), h)
    {
      match pc {
        case Renegotiate =>
          renegotiate := 1;
          outcome := Begin(h);
        case Before => outcome := Begin(h);
        case Accept => outcome := Begin(h);
        case HelloRequestSent =>
          pc := Ok;
          outcome := GoOn;
        case Flush =>
          if h.ret <= 0 {
            if !h.retry { pc := next; }
            return Leave;
          }
          pc := next;
          outcome := GoOn;
        case Ok =>
          outcome := Leave;
          if renegotiate == 2 {
            renegotiate := 0;
            outcome := Done;
          }
        case GetCert => outcome := Keys(h);
        case GetKeyExch => outcome := Keys(h);
        case GetVerify => outcome := Keys(h);
        case GetFinished => outcome := Keys(h);
        case SendTicket => outcome := Keys(h);
        case Change => outcome := Keys(h);
        case Finish => outcome := Keys(h);
        case _ => outcome := Hello(h);
      }
    }

    /** dtls1_accept: `done` is whether it reports SSL_CB_HANDSHAKE_DONE. */
    method AcceptCall(script: seq<Helpers>) returns (done: bool)
      requires Inv(View())
      modifies this
      ensures (View(), done) == OneCall(old(View()), script)
      ensures Inv(View())
      ensures done ==> Complete(View())
      ensures done ==> (events == ServerOrder(hit) <==> !old(pc == Ok && renegotiate == 2 && events == FIRST))
    {
      EnterKeepsInv(View());
      if OneCall(View(), script).1 { ReportIff(View(), script); }
      if pc == Ok || pc == Before { Clear(); }
      LoopKeepsInv(View(), script);
      ghost var goal := Loop(View(), script);
      var i := 0;
      while i < |script|
        invariant 0 <= i <= |script|
        invariant goal == Loop(View(), script[i..])
      {
        var outcome := Iterate(script[i]);
        assert script[i..][1..] == script[i + 1..];
        i := i + 1;
        if outcome != GoOn { return outcome == Done; }
      }
      done := false;
    }
  }
}
