/**
 * What a whole call of MemCheck_off, MemCheck_on and CRYPTO_is_mem_check_on does for the thread that makes
 * it (mem_dbg.c), with any steps of other threads in between.
 */
module MemCheckCalls {
  import opened Wrappers
  import opened MemCheckLocks

  /** Thread `t` is inside a call until the moves are over, and then outside. */
  predicate Inside(s: State, t: nat, moves: seq<Move>)
    requires Legal(s, moves) && t < |s.threads|
    decreases |moves|
  {
    if moves == [] then s.threads[t].pc == Outside
    else
      StepIsLocal(s, moves[0].t, moves[0].call);
      s.threads[t].pc != Outside && Inside(Step(s, moves[0].t, moves[0].call), t, moves[1..])
  }

  /** Thread `t` enters a call with the first of the moves and leaves it with the last. */
  predicate IsCall(s: State, t: nat, call: Call, moves: seq<Move>)
    requires Legal(s, moves) && t < |s.threads|
  {
    && s.threads[t].pc == Outside && moves != [] && moves[0] == Move(t, call)
    && (StepIsLocal(s, t, call); Inside(Step(s, t, call), t, moves[1..]))
  }

  /** Where a thread is in a call it began with `depth` disables of its own. */
  predicate Underway(s: State, t: nat, call: Call, depth: nat)
    requires t < |s.threads|
  {
    var th := s.threads[t];
    match call
    case Off =>
      || (th.pc in {OffLock, OffTest, OffUnlockFirst, OffLock2, OffRelock, OffClear, OffCopy, OffCount}
          && th.depth == depth)
      || (th.pc == OffUnlock && th.depth == depth + 1)
    case On =>
      || (th.pc in {OnLock, OnCount} && th.depth == depth > 0)
      || (th.pc in {OnEnable, OnUnlock2, OnUnlock} && th.depth == depth - 1)
    case Ask => th.pc in {AskLock, AskRead, AskUnlock} && th.depth == depth
  }

  /** Having switched checking on again, a thread leaves it on until it gives MALLOC back. */
  predicate Enabled(s: State, t: nat)
    requires t < |s.threads|
  {
    s.threads[t].pc == OnUnlock && s.threads[t].depth == 0 ==> s.enable
  }

  /** What a call has done when it returns. */
  predicate Effect(s: State, t: nat, call: Call, depth: nat)
    requires t < |s.threads|
  {
    var th := s.threads[t];
    match call
    case Off => th.depth == depth + 1 && !s.enable && s.owner2 == Some(t) && s.disabler == t
    case On =>
      && th.depth == depth - 1
      && (if th.depth == 0 then s.enable && s.owner2 != Some(t)
          else !s.enable && s.owner2 == Some(t) && s.disabler == t)
    case Ask => th.depth == depth && (th.answer <==> depth == 0)
  }

  /** One step of the thread itself: further in the call, or out of it. */
  lemma OwnProgress(s: State, t: nat, any: Call, call: Call, depth: nat)
    requires Inv(s) && Can(s, t, any) && s.threads[t].pc != Outside
    requires Underway(s, t, call, depth) && Enabled(s, t)
    ensures var r := Step(s, t, any);
            && t < |r.threads|
            && (r.threads[t].pc != Outside ==> Underway(r, t, call, depth) && Enabled(r, t))
            && (r.threads[t].pc == Outside ==> Effect(r, t, call, depth))
  {
    assert ThreadOk(s, t);
    StepKeepsInv(s, t, any);
    StepIsLocal(s, t, any);
    assert ThreadOk(Step(s, t, any), t);
  }

  /** A step of another thread leaves a call where it is. */
  lemma OtherProgress(s: State, t: nat, u: nat, any: Call, call: Call, depth: nat)
    requires Inv(s) && Can(s, u, any) && t < |s.threads| && t != u
    requires Underway(s, t, call, depth) && Enabled(s, t)
    ensures var r := Step(s, u, any);
            t < |r.threads| && r.threads[t] == s.threads[t] && Underway(r, t, call, depth) && Enabled(r, t)
  {
    assert ThreadOk(s, t) && ThreadOk(s, u);
    StepIsLocal(s, u, any);
  }

  lemma {:induction false} Progress(s: State, t: nat, call: Call, depth: nat, moves: seq<Move>)
    requires Inv(s) && t < |s.threads| && Legal(s, moves) && moves != [] && Inside(s, t, moves)
    requires Underway(s, t, call, depth) && Enabled(s, t)
    ensures t < |After(s, moves).threads| && Effect(After(s, moves), t, call, depth)
    decreases |moves|
  {
    var m := moves[0];
    var s' := Step(s, m.t, m.call);
    StepKeepsInv(s, m.t, m.call);
    StepIsLocal(s, m.t, m.call);
    if m.t == t { OwnProgress(s, t, m.call, call, depth); } else { OtherProgress(s, t, m.t, m.call, call, depth); }
    if moves[1..] != [] { Progress(s', t, call, depth, moves[1..]); }
  }

  /**
   * In every run: a thread that calls MemCheck_off comes back with one disable more, checking disabled in its
   * own name, and MALLOC2 held by it; one that calls MemCheck_on comes back with one less, and with the last
   * one checking is enabled and MALLOC2 is no longer its own; CRYPTO_is_mem_check_on changes nothing and
   * answers whether the thread has no disable of its own.
   */
  lemma CallEffect(s: State, from: State, before: seq<Move>, t: nat, call: Call, moves: seq<Move>)
    requires Reached(s, from, before) && t < |s.threads| && Legal(s, moves) && IsCall(s, t, call, moves)
    ensures t < |After(s, moves).threads| && Effect(After(s, moves), t, call, s.threads[t].depth)
  {
    ReachedInv(s, from, before);
    StepKeepsInv(s, t, call);
    StepIsLocal(s, t, call);
    Progress(Step(s, t, call), t, call, s.threads[t].depth, moves[1..]);
  }
}
