/**
 * The client's handshake driver (dtls1_connect in d1_clnt.c): a loop over states in which every message
 * helper may succeed, fail, or have to be tried again by a later call. States that differ only in how far
 * a message has got are one.
 */
module ClientDriver {
  import opened HandshakeEvents

  datatype Pc =
    | Before | Connect | Renegotiate
    | SendHello | GetHello | GetHelloVerify | GetCert | GetCertStatus | GetKeyExch | GetCertReq | GetDone
    | SendCert | SendKeyExch | SendVerify | Change | Finish | Flush | GetTicket | GetFinished | Ok

  /** What the helpers and the environment do in one iteration. */
  datatype Helpers = Helpers(
    ret: int,           // result of the state's message helper, or of the flush
    ret2: int,          // result of ssl3_get_server_certificate
    sound: bool,        // internal checks and key derivation succeed
    hit: bool,          // what ssl3_get_server_hello leaves in s->hit
    cookie: bool,       // dtls1_get_hello_verify was asked for a cookie
    ticket: bool, anonymous: bool, status: bool, certReq: int,
    delay: bool,        // SSL3_FLAGS_DELAY_CLIENT_FINISHED
    retry: bool)        // BIO_should_retry

  /** `events` are those since the last SSL_CB_HANDSHAKE_START. */
  datatype State = State(
    pc: Pc,
    next: Pc,                 // s3->tmp.next_state
    hit: bool,
    sendCookie: bool,
    renegotiate: bool,
    events: seq<Event>,
    hitKept: bool)            // no call has cleared `hit` while the rest of the state stayed

  const INITIAL: State := State(Before, Before, false, false, false, [], true)

  /** How a call begins: SSL_clear, which gives up half-way while renegotiating. */
  function Enter(s: State): State {
    if s.pc != Ok && s.pc != Before then s
    else if s.renegotiate then s.(hit := false, hitKept := false)
    else s.(hit := false, pc := Before)
  }

  function Step(s: State, h: Helpers): (State, Outcome) {
    match s.pc
    case Before => Start(s, h)
    case Connect => Start(s, h)
    case Renegotiate => Start(s.(pc := Connect, renegotiate := true), h)
    case SendHello => After(s, h, if s.sendCookie then s.(pc := Flush, next := GetHello) else s.(pc := GetHello))
    case GetHello =>
      var s1 := s.(hit := h.hit);
      After(s1, h, s1.(pc := if h.hit then GetFinished else GetHelloVerify))
    case GetHelloVerify => After(s, h, s.(sendCookie := h.cookie, pc := if h.cookie then SendHello else GetCert))
    case GetCert =>
      if h.ret <= 0 then (s, Leave)
      else if h.ret == 2 then (s.(hit := true, pc := if h.ticket then GetTicket else GetFinished), GoOn)
      else if h.anonymous then (s.(pc := GetKeyExch), GoOn)
      else if h.ret2 <= 0 then (s, Leave)
      else (s.(pc := if h.status then GetCertStatus else GetKeyExch), GoOn)
    case GetCertStatus => After(s, h, s.(pc := GetKeyExch))
    case GetKeyExch => Checked(After(s, h, s.(pc := GetCertReq)), h)
    case GetCertReq => After(s, h, s.(pc := GetDone))
    case GetDone => After(s, h, s.(pc := if h.certReq != 0 then SendCert else SendKeyExch))
    case SendCert => After(s, h, s.(pc := SendKeyExch))
    case SendKeyExch => After(s, h, s.(pc := if h.certReq == 1 then SendVerify else Change))
    case SendVerify => After(s, h, s.(pc := Change))
    case Change => Checked(After(s, h, s.(pc := Finish, events := s.events + [SentCcs])), h)
    case Finish =>
      var s1 := s.(events := s.events + [SentFinished]);
      After(s, h, if s.hit then s1.(next := Ok, pc := if h.delay then Ok else Flush)
                  else s1.(next := if h.ticket then GetTicket else GetFinished, pc := Flush))
    case GetTicket => After(s, h, s.(pc := GetFinished))
    case GetFinished => After(s, h, s.(pc := if s.hit then Change else Ok, events := s.events + [PeerFinished]))
    case Flush =>
      if h.ret > 0 then (s.(pc := s.next), GoOn) else (if h.retry then s else s.(pc := s.next), Leave)
    case Ok => (s.(renegotiate := false), Done)
  }

  function Start(s: State, h: Helpers): (State, Outcome) {
    var s1 := s.(events := [], hitKept := true);
    if !h.sound then (s1, Leave) else (s1.(pc := SendHello, sendCookie := false, hit := false), GoOn)
  }

  /** The usual case: the helper succeeds, or the call returns to try again from the same state. */
  function After(s: State, h: Helpers, then_: State): (State, Outcome) {
    if h.ret <= 0 then (s, Leave) else (then_, GoOn)
  }

  /** A check after the state has been moved on */
  function Checked(r: (State, Outcome), h: Helpers): (State, Outcome) {
    if r.1 == GoOn && !h.sound then (r.0, Leave) else r
  }

  /** The loop; it may also return between iterations, as when a debugging flush fails. */
  function Loop(s: State, script: seq<Helpers>): (State, bool)
    decreases |script|
  {
    if script == [] then (s, false) else
    var (s1, outcome) := Step(s, script[0]);
    if outcome == GoOn then Loop(s1, script[1..]) else (s1, outcome == Done)
  }

  /** dtls1_connect: the state it leaves, and whether it reported SSL_CB_HANDSHAKE_DONE. */
  function OneCall(s: State, script: seq<Helpers>): (State, bool) { Loop(Enter(s), script) }

  /** Between calls a finished connection may be told to renegotiate, with or without moving its state yet. */
  datatype Act = Call(script: seq<Helpers>) | AskRenegotiation(move: bool)

  function Perform(s: State, act: Act): State {
    match act
    case Call(script) => OneCall(s, script).0
    case AskRenegotiation(move) =>
      if s.pc != Ok then s else s.(renegotiate := true, pc := if move then Renegotiate else Ok)
  }

  function Run(s: State, acts: seq<Act>): State
    decreases |acts|
  {
    if acts == [] then s else Run(Perform(s, acts[0]), acts[1..])
  }

  // ---- The invariant ----

  /** What the events say at each state, for a handshake that resumes a session or not. */
  predicate EventsAt(pc: Pc, next: Pc, hit: bool, events: seq<Event>) {
    match pc
    case SendHello => events == []
    case GetHello => events == []
    case GetTicket => events == if hit then [] else [SentCcs, SentFinished]
    case GetFinished => events == if hit then [] else [SentCcs, SentFinished]
    case Change => events == if hit then [PeerFinished] else []
    case Finish => events == if hit then [PeerFinished, SentCcs] else [SentCcs]
    case Flush =>
      || (next == GetHello && events == [])
      || (next == Ok && hit && events == SECOND)
      || (next in {GetTicket, GetFinished} && !hit && events == [SentCcs, SentFinished])
    case Ok => events == ClientOrder(hit)
    case Before => true
    case Connect => true
    case Renegotiate => true
    case _ => !hit && events == []
  }

  predicate Inv(s: State) {
    || s.pc in {Before, Connect, Renegotiate}
    || (s.hitKept && EventsAt(s.pc, s.next, s.hit, s.events))
    || (s.pc == Ok && !s.hitKept && !s.hit && (s.events == FIRST || s.events == SECOND))
  }

  lemma EnterKeepsInv(s: State)
    requires Inv(s)
    ensures Inv(Enter(s))
  {
  }

  lemma StartStep(s: State, h: Helpers)
    requires Inv(s) && s.pc in {Before, Connect, Renegotiate}
    ensures Inv(Step(s, h).0) && Step(s, h).1 != Done
  {
  }

  lemma HelloStep(s: State, h: Helpers)
    requires Inv(s) && s.pc in {SendHello, GetHello, GetHelloVerify, GetCert}
    ensures Inv(Step(s, h).0) && Step(s, h).1 != Done
  {
  }

  lemma SilentStep(s: State, h: Helpers)
    requires Inv(s)
    requires s.pc in {GetCertStatus, GetKeyExch, GetCertReq, GetDone, SendCert, SendKeyExch, SendVerify, GetTicket}
    ensures Inv(Step(s, h).0) && Step(s, h).1 != Done
  {
  }

  lemma ChangeStep(s: State, h: Helpers)
    requires Inv(s) && s.pc == Change
    ensures Inv(Step(s, h).0) && Step(s, h).1 != Done
  {
    assert [PeerFinished] + [SentCcs] == [PeerFinished, SentCcs];
    assert [] + [SentCcs] == [SentCcs];
  }

  lemma FinishStep(s: State, h: Helpers)
    requires Inv(s) && s.pc == Finish
    ensures Inv(Step(s, h).0) && Step(s, h).1 != Done
  {
    assert [PeerFinished, SentCcs] + [SentFinished] == SECOND;
    assert [SentCcs] + [SentFinished] == [SentCcs, SentFinished];
  }

  lemma PeerStep(s: State, h: Helpers)
    requires Inv(s) && s.pc == GetFinished
    ensures Inv(Step(s, h).0) && Step(s, h).1 != Done
  {
    assert [SentCcs, SentFinished] + [PeerFinished] == FIRST;
    assert [] + [PeerFinished] == [PeerFinished];
  }

  lemma LateStep(s: State, h: Helpers)
    requires Inv(s) && s.pc in {Flush, Ok}
    ensures Inv(Step(s, h).0)
    ensures Step(s, h).1 == Done ==> s.pc == Ok && Step(s, h).0 == s.(renegotiate := false)
  {
  }

  lemma StepKeepsInv(s: State, h: Helpers)
    requires Inv(s)
    ensures Inv(Step(s, h).0)
    ensures Step(s, h).1 == Done ==> s.pc == Ok && Step(s, h).0 == s.(renegotiate := false)
  {
    match s.pc {
      case Change => ChangeStep(s, h);
      case Finish => FinishStep(s, h);
      case GetFinished => PeerStep(s, h);
      case Flush => LateStep(s, h);
      case Ok => LateStep(s, h);
      case Before => StartStep(s, h);
      case Connect => StartStep(s, h);
      case Renegotiate => StartStep(s, h);
      case SendHello => HelloStep(s, h);
      case GetHello => HelloStep(s, h);
      case GetHelloVerify => HelloStep(s, h);
      case GetCert => HelloStep(s, h);
      case _ => SilentStep(s, h);
    }
  }

  /** The handshake has run completely, and in one of the two orders. */
  predicate Complete(s: State) {
    s.events == FIRST || s.events == SECOND
  }

  lemma {:induction false} LoopKeepsInv(s: State, script: seq<Helpers>)
    requires Inv(s)
    ensures var (r, done) := Loop(s, script);
            && Inv(r)
            && (done ==> r.pc == Ok && !r.renegotiate && Complete(r) && (r.hitKept ==> r.events == ClientOrder(r.hit)))
    decreases |script|
  {
    if script != [] {
      StepKeepsInv(s, script[0]);
      if Step(s, script[0]).1 == GoOn { LoopKeepsInv(Step(s, script[0]).0, script[1..]); }
    }
  }

  lemma {:induction false} RunKeepsInv(s: State, acts: seq<Act>)
    requires Inv(s)
    ensures Inv(Run(s, acts))
    decreases |acts|
  {
    if acts != [] {
      if acts[0].Call? {
        EnterKeepsInv(s);
        LoopKeepsInv(Enter(s), acts[0].script);
      }
      RunKeepsInv(Perform(s, acts[0]), acts[1..]);
    }
  }

  /** A handshake that is not already finished when the loop begins is reported with `hit` as negotiated. */
  lemma {:induction false} ReportedWithHit(s: State, script: seq<Helpers>)
    requires Inv(s) && s.pc != Ok && Loop(s, script).1
    ensures Loop(s, script).0.events == ClientOrder(Loop(s, script).0.hit)
    decreases |script|
  {
    var s1 := Step(s, script[0]).0;
    StepKeepsInv(s, script[0]);
    if s1.pc != Ok {
      ReportedWithHit(s1, script[1..]);
    } else {
      FinishedWithHit(s, script[0]);
      assert Loop(s1, script[1..]).0 == s1.(renegotiate := false);
    }
  }

  lemma FinishedWithHit(s: State, h: Helpers)
    requires Inv(s) && s.pc != Ok && Step(s, h).0.pc == Ok
    ensures Step(s, h).0.events == ClientOrder(Step(s, h).0.hit)
  {
    StepKeepsInv(s, h);
    assert Step(s, h).0.hitKept == s.hitKept;
  }

  /** What a report says of the state the call found. */
  lemma ReportIff(s: State, script: seq<Helpers>)
    requires Inv(s) && OneCall(s, script).1
    ensures var r := OneCall(s, script).0;
            && Complete(r)
            && (r.events == ClientOrder(r.hit) <==> !(s.pc == Ok && s.renegotiate && s.events == SECOND))
  {
    EnterKeepsInv(s);
    LoopKeepsInv(Enter(s), script);
    if Enter(s).pc != Ok {
      ReportedWithHit(Enter(s), script);
    } else {
      assert OneCall(s, script).0 == Enter(s).(renegotiate := false);
    }
  }

  /**
   * On every run, whatever the helpers do: when a call reports SSL_CB_HANDSHAKE_DONE, then since the last
   * SSL_CB_HANDSHAKE_START exactly one ChangeCipherSpec and after it one Finished were sent and the peer's
   * Finished was accepted. It came first exactly when `hit` says that the session is resumed, unless the call
   * found a resumed handshake finished while it renegotiates: SSL_clear has then cleared `hit`.
   */
  lemma DoneIsSafe(acts: seq<Act>, script: seq<Helpers>)
    requires OneCall(Run(INITIAL, acts), script).1
    ensures var s, r := Run(INITIAL, acts), OneCall(Run(INITIAL, acts), script).0;
            && (r.events == SECOND || r.events == FIRST)
            && (r.events == ClientOrder(r.hit) <==> !(s.pc == Ok && s.renegotiate && s.events == SECOND))
  {
    RunKeepsInv(INITIAL, acts);
    ReportIff(Run(INITIAL, acts), script);
  }

  const FINE: Helpers := Helpers(1, 1, true, true, false, false, false, false, 0, false, false)

  /** Helpers that succeed `n` times, resuming a session */
  function Fine(n: nat, rest: seq<Helpers>): seq<Helpers> {
    if n == 0 then rest else [FINE] + Fine(n - 1, rest)
  }

  lemma FineStep(s: State, n: nat, rest: seq<Helpers>)
    requires n > 0 && Step(s, FINE).1 == GoOn
    ensures Loop(s, Fine(n, rest)) == Loop(Step(s, FINE).0, Fine(n - 1, rest))
  {
    assert Fine(n, rest)[0] == FINE && Fine(n, rest)[1..] == Fine(n - 1, rest);
  }

  /** Six iterations take a resumed handshake to the flush behind its Finished. */
  lemma ResumedToFlush(s: State, rest: seq<Helpers>) returns (r: State)
    requires s.pc in {Before, Renegotiate}
    ensures Loop(s, Fine(6, rest)) == Loop(r, rest)
    ensures r.pc == Flush && r.next == Ok && r.hit && r.events == SECOND
    ensures r.renegotiate == (s.renegotiate || s.pc == Renegotiate)
  {
    var t := ResumedToHello(s, rest);
    r := ResumedFromHello(t, rest);
  }

  lemma ResumedToHello(s: State, rest: seq<Helpers>) returns (r: State)
    requires s.pc in {Before, Renegotiate}
    ensures Loop(s, Fine(6, rest)) == Loop(r, Fine(3, rest))
    ensures r.pc == GetFinished && r.hit && r.events == []
    ensures r.renegotiate == (s.renegotiate || s.pc == Renegotiate)
  {
    FineStep(s, 6, rest);
    r := Step(s, FINE).0;
    FineStep(r, 5, rest);
    r := Step(r, FINE).0;
    FineStep(r, 4, rest);
    r := Step(r, FINE).0;
  }

  lemma ResumedFromHello(s: State, rest: seq<Helpers>) returns (r: State)
    requires s.pc == GetFinished && s.hit && s.events == []
    ensures Loop(s, Fine(3, rest)) == Loop(r, rest)
    ensures r.pc == Flush && r.next == Ok && r.hit && r.events == SECOND && r.renegotiate == s.renegotiate
  {
    FineStep(s, 3, rest);
    r := Step(s, FINE).0;
    FineStep(r, 2, rest);
    r := Step(r, FINE).0;
    FineStep(r, 1, rest);
    r := Step(r, FINE).0;
    assert Fine(0, rest) == rest;
  }

  /** A call that resumes a session and succeeds, and one whose last flush fails for good */
  function Resume(): Act { Call(Fine(6, [FINE, FINE])) }

  function ResumeButFlush(): Act { Call(Fine(6, [FINE.(ret := 0)])) }

  lemma AfterResume(s: State)
    requires s.pc == Before && !s.renegotiate
    ensures Perform(s, Resume()).pc == Ok
  {
    var r := ResumedToFlush(Enter(s), [FINE, FINE]);
    assert [FINE, FINE][1..] == [FINE];
    assert Loop(r, [FINE, FINE]) == Loop(Step(r, FINE).0, [FINE]);
  }

  lemma AfterFailedFlush(s: State)
    requires s.pc == Renegotiate
    ensures var r := Perform(s, ResumeButFlush()); r.pc == Ok && r.renegotiate && r.events == SECOND
  {
    var r := ResumedToFlush(s, [FINE.(ret := 0)]);
  }

  /**
   * The exception occurs: a session is resumed, then renegotiated by resuming it again, the last flush fails
   * for good, and the next call reports the handshake as done with `hit` cleared.
   */
  lemma HitLostExample() returns (acts: seq<Act>)
    ensures var (r, done) := OneCall(Run(INITIAL, acts), [FINE]);
            done && r.events == SECOND && !r.hit
  {
    acts := [Resume(), AskRenegotiation(true), ResumeButFlush()];
    RunOfThree(INITIAL, Resume(), AskRenegotiation(true), ResumeButFlush());
    AfterResume(INITIAL);
    var s := Perform(Perform(INITIAL, Resume()), AskRenegotiation(true));
    AfterFailedFlush(s);
    ReportClears(Perform(s, ResumeButFlush()));
  }

  /** A call that finds the handshake finished while it renegotiates reports it with `hit` cleared. */
  lemma ReportClears(s: State)
    requires s.pc == Ok && s.renegotiate
    ensures var (r, done) := OneCall(s, [FINE]);
            done && r.events == s.events && !r.hit
  {
  }

  lemma RunOfThree(s: State, a: Act, b: Act, c: Act)
    ensures Run(s, [a, b, c]) == Perform(Perform(Perform(s, a), b), c)
  {
    assert [a, b, c][1..] == [b, c] && [b, c][1..] == [c] && [c][1..] == [];
    var t := Perform(Perform(s, a), b);
    assert Run(t, [c]) == Run(Perform(t, c), []) == Perform(t, c);
    assert Run(Perform(s, a), [b, c]) == Run(t, [c]);
  }

  // ---- The driver ----

  class Client {
    var pc: Pc
    var next: Pc
    var hit: bool
    var sendCookie: bool
    var renegotiate: bool
    ghost var events: seq<Event>
    ghost var hitKept: bool

    ghost function View(): State
      reads this
    {
      State(pc, next, hit, sendCookie, renegotiate, events, hitKept)
    }

    constructor ()
      ensures View() == INITIAL
    {
      pc, next, hit, sendCookie, renegotiate, events, hitKept := Before, Before, false, false, false, [], true;
    }

    /** SSL_clear */
    method Clear()
      modifies this
      ensures View() == old(View()).(hit := false, hitKept := old(hitKept && !renegotiate),
                                     pc := if old(renegotiate) then old(pc) else Before)
    {
      hit := false;
      if renegotiate {
        hitKept := false;
        return;
      }
      pc := Before;
    }

    /** The states in which a handshake starts */
    method Begin(h: Helpers) returns (outcome: Outcome)
      modifies this
      ensures (View(), outcome) == Start(old(View()), h)
    {
      events, hitKept := [], true;
      if !h.sound { return Leave; }
      pc := SendHello;
      sendCookie := false;
      hit := false;
      outcome := GoOn;
    }

    /** The states up to the server's ServerHelloDone */
    method Hello(h: Helpers) returns (outcome: Outcome)
      requires pc in {SendHello, GetHello, GetHelloVerify, GetCert, GetCertStatus, GetKeyExch, GetCertReq, GetDone}
      modifies this
      ensures (View(), outcome) == Step(old(View()), h)
    {
      if pc == GetHello { hit := h.hit; }
      if h.ret <= 0 { return Leave; }
      outcome := GoOn;
      match pc {
        case SendHello =>
          if sendCookie {
            pc, next := Flush, GetHello;
          } else {
            pc := GetHello;
          }
        case GetHello => pc := if hit then GetFinished else GetHelloVerify;
        case GetHelloVerify =>
          sendCookie := h.cookie;
          pc := if sendCookie then SendHello else GetCert;
        case GetCert =>
          if h.ret == 2 {
            hit := true;
            pc := if h.ticket then GetTicket else GetFinished;
          } else if !h.anonymous {
            if h.ret2 <= 0 { return Leave; }
            pc := if h.status then GetCertStatus else GetKeyExch;
          } else {
            pc := GetKeyExch;
          }
        case GetCertStatus => pc := GetKeyExch;
        case GetKeyExch =>
          pc := GetCertReq;
          if !h.sound { return Leave; }
        case GetCertReq => pc := GetDone;
        case GetDone => pc := if h.certReq != 0 then SendCert else SendKeyExch;
      }
    }

    /** The client's second flight, and the server's last */
    method Keys(h: Helpers) returns (outcome: Outcome)
      requires pc in {SendCert, SendKeyExch, SendVerify, Change, Finish, GetTicket, GetFinished}
      modifies this
      ensures (View(), outcome) == Step(old(View()), h)
    {
      if h.ret <= 0 { return Leave; }
      outcome := GoOn;
      match pc {
        case SendCert => pc := SendKeyExch;
        case SendKeyExch => pc := if h.certReq == 1 then SendVerify else Change;
        case SendVerify => pc := Change;
        case Change =>
          events := events + [SentCcs];
          pc := Finish;
          if !h.sound { return Leave; }
        case Finish =>
          events := events + [SentFinished];
          pc := Flush;
          if hit {
            next := Ok;
            if h.delay { pc := Ok; }
          } else {
            next := if h.ticket then GetTicket else GetFinished;
          }
        case GetTicket => pc := GetFinished;
        case GetFinished =>
          events := events + [PeerFinished];
          pc := if hit then Change else Ok;
      }
    }

    /** One iteration */
    method Iterate(h: Helpers) returns (outcome: Outcome)
      modifies this
      ensures (View(), outcome) == Step(old(View()), h)
    {
      match pc {
        case Renegotiate =>
          renegotiate := true;
          pc := Connect;
          outcome := Begin(h);
        case Before => outcome := Begin(h);
        case Connect => outcome := Begin(h);
        case Flush =>
          if h.ret <= 0 {
            if !h.retry { pc := next; }
            return Leave;
          }
          pc := next;
          outcome := GoOn;
        case Ok =>
          renegotiate := false;
          outcome := Done;
        case SendCert => outcome := Keys(h);
        case SendKeyExch => outcome := Keys(h);
        case SendVerify => outcome := Keys(h);
        case Change => outcome := Keys(h);
        case Finish => outcome := Keys(h);
        case GetTicket => outcome := Keys(h);
        case GetFinished => outcome := Keys(h);
        case _ => outcome := Hello(h);
      }
    }

    /** dtls1_connect: `done` is whether it reports SSL_CB_HANDSHAKE_DONE. */
    method ConnectCall(script: seq<Helpers>) returns (done: bool)
      requires Inv(View())
      modifies this
      ensures (View(), done) == OneCall(old(View()), script)
      ensures Inv(View())
      ensures done ==> Complete(View())
      ensures done ==> (events == ClientOrder(hit) <==> !old(pc == Ok && renegotiate && events == SECOND))
    {
      EnterKeepsInv(View());
      if OneCall(View(), script).1 { ReportIff(View(), script); }
      if pc == Ok || pc == Before { Clear(); }
      LoopKeepsInv(View(), script);
      ghost var goal := Loop(View(), script);
      var i := 0;
      while i < |script|
        invariant 0 <= i <= |script|
        invariant goal == Loop(View(), script[i..])
      {
        var outcome := Iterate(script[i]);
        assert script[i..][1..] == script[i + 1..];
        i := i + 1;
        if outcome != GoOn { return outcome == Done; }
      }
      done := false;
    }
  }
}
