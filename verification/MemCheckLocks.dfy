/**
 * Switching memory checking off and on between threads (mem_dbg.c: CRYPTO_mem_ctrl, CRYPTO_is_mem_check_on),
 * as a state machine. A step is one access to shared data or one lock operation; MALLOC guards the data,
 * MALLOC2 is held as long as checking is off. Checking has been started, and every thread pairs its calls.
 */
module MemCheckLocks {
  import opened Wrappers

  /** Where a thread is: outside, or about to do what the name says. */
  datatype Pc =
    | Outside
    | OffLock | OffTest | OffUnlockFirst | OffLock2 | OffRelock | OffClear | OffCopy | OffCount | OffUnlock
    | OnLock | OnCount | OnEnable | OnUnlock2 | OnUnlock
    | AskLock | AskRead | AskUnlock

  /** `depth` is how often the thread has switched off and not yet on again. */
  datatype Thread = Thread(pc: Pc, depth: nat, answer: bool)

  datatype State = State(
    threads: seq<Thread>,
    writer: Option<nat>,      // CRYPTO_LOCK_MALLOC held for writing
    readers: set<nat>,        // CRYPTO_LOCK_MALLOC held for reading
    owner2: Option<nat>,      // CRYPTO_LOCK_MALLOC2
    enable: bool,             // CRYPTO_MEM_CHECK_ENABLE in mh_mode
    numDisable: nat,
    disabler: nat)            // disabling_threadid

  datatype Call = Off | On | Ask

  function At(s: State, t: nat, pc: Pc): State
    requires t < |s.threads|
  {
    s.(threads := s.threads[t := s.threads[t].(pc := pc)])
  }

  /** Whether thread `t` can take its next step; a thread outside makes the given call. */
  predicate Can(s: State, t: nat, call: Call) {
    t < |s.threads| &&
    match s.threads[t].pc
    case Outside => call == On ==> s.threads[t].depth > 0
    case OffLock => s.writer.None? && s.readers == {}
    case OnLock => s.writer.None? && s.readers == {}
    case OffRelock => s.writer.None? && s.readers == {}
    case OffLock2 => s.owner2.None?
    case AskLock => s.writer.None?
    case _ => true
  }

  function Step(s: State, t: nat, call: Call): State
    requires Can(s, t, call)
  {
    var me := s.threads[t];
    match me.pc
    case Outside => At(s, t, match call case Off => OffLock case On => OnLock case Ask => AskLock)
    // CRYPTO_MEM_CHECK_DISABLE
    case OffLock => At(s, t, OffTest).(writer := Some(t))
    case OffTest => At(s, t, if s.numDisable == 0 || s.disabler != t then OffUnlockFirst else OffCount)
    case OffUnlockFirst => At(s, t, OffLock2).(writer := None)
    case OffLock2 => At(s, t, OffRelock).(owner2 := Some(t))
    case OffRelock => At(s, t, OffClear).(writer := Some(t))
    case OffClear => At(s, t, OffCopy).(enable := false)
    case OffCopy => At(s, t, OffCount).(disabler := t)
    case OffCount =>
      s.(threads := s.threads[t := me.(pc := OffUnlock, depth := me.depth + 1)], numDisable := s.numDisable + 1)
    case OffUnlock => At(s, t, Outside).(writer := None)
    // CRYPTO_MEM_CHECK_ENABLE
    case OnLock => At(s, t, OnCount).(writer := Some(t))
    case OnCount =>
      if s.numDisable == 0 then At(s, t, OnUnlock)
      else s.(threads := s.threads[t := me.(pc := if s.numDisable == 1 then OnEnable else OnUnlock,
                                            depth := if me.depth > 0 then me.depth - 1 else 0)],
              numDisable := s.numDisable - 1)
    case OnEnable => At(s, t, OnUnlock2).(enable := true)
    case OnUnlock2 => At(s, t, OnUnlock).(owner2 := None)
    case OnUnlock => At(s, t, Outside).(writer := None)
    // CRYPTO_is_mem_check_on
    case AskLock => At(s, t, AskRead).(readers := s.readers + {t})
    case AskRead =>
      s.(threads := s.threads[t := me.(pc := AskUnlock, answer := s.enable || s.disabler != t)])
    case AskUnlock => At(s, t, Outside).(readers := s.readers - {t})
  }

  // ---- The invariant ----

  predicate Writes(pc: Pc) {
    pc in {OffTest, OffUnlockFirst, OffClear, OffCopy, OffCount, OffUnlock, OnCount, OnEnable, OnUnlock2, OnUnlock}
  }

  predicate Reads(pc: Pc) { pc == AskRead || pc == AskUnlock }

  /** Whether a thread holds MALLOC2. */
  predicate Holds2(th: Thread) {
    th.depth > 0 || th.pc in {OffRelock, OffClear, OffCopy, OffCount, OnEnable, OnUnlock2}
  }

  /** What the shared data are while a thread holds MALLOC2. */
  predicate HolderOk(th: Thread, t: nat, s: State) {
    && s.numDisable == th.depth
    && (s.enable <==> th.pc in {OffRelock, OffClear, OnUnlock2})
    && (th.pc in {OffRelock, OffClear, OffCopy, OnEnable, OnUnlock2} ==> th.depth == 0)
    && (th.depth > 0 || th.pc == OffCount ==> s.disabler == t)
  }

  predicate ThreadOk(s: State, t: nat)
    requires t < |s.threads|
  {
    var th := s.threads[t];
    && (Writes(th.pc) <==> s.writer == Some(t))
    && (Reads(th.pc) <==> t in s.readers)
    && (Holds2(th) <==> s.owner2 == Some(t))
    && (Holds2(th) ==> HolderOk(th, t, s))
    && (th.pc in {OnLock, OnCount} ==> th.depth > 0)
    && (th.pc in {OffUnlockFirst, OffLock2} ==> th.depth == 0)
    && (th.pc == OffUnlock ==> th.depth > 0)
    && (th.pc == OnUnlock && th.depth == 0 ==> !Holds2(th))
    && (th.pc == AskUnlock ==> th.answer == (th.depth == 0))
  }

  predicate Inv(s: State) {
    && (forall t :: 0 <= t < |s.threads| ==> ThreadOk(s, t))
    && (s.writer.Some? ==> s.writer.value < |s.threads| && s.readers == {})
    && (forall t :: t in s.readers ==> t < |s.threads|)
    && (s.owner2.Some? ==> s.owner2.value < |s.threads|)
    && (s.owner2.None? ==> s.numDisable == 0 && s.enable)
  }

  lemma OwnWriterStep(s: State, t: nat, call: Call)
    requires Inv(s) && Can(s, t, call) && Writes(s.threads[t].pc)
    ensures ThreadOk(Step(s, t, call), t)
  {
    assert ThreadOk(s, t);
    if s.owner2.Some? { assert ThreadOk(s, s.owner2.value); }
  }

  lemma OwnStep(s: State, t: nat, call: Call)
    requires Inv(s) && Can(s, t, call)
    ensures ThreadOk(Step(s, t, call), t)
  {
    if Writes(s.threads[t].pc) {
      OwnWriterStep(s, t, call);
    } else {
      assert ThreadOk(s, t);
      if s.owner2.Some? { assert ThreadOk(s, s.owner2.value); }
    }
  }

  lemma UnownedStep(s: State, t: nat, call: Call)
    requires Inv(s) && Can(s, t, call)
    ensures Step(s, t, call).owner2.None? ==> Step(s, t, call).numDisable == 0 && Step(s, t, call).enable
  {
    assert ThreadOk(s, t);
  }

  lemma OtherStep(s: State, t: nat, call: Call, u: nat)
    requires Inv(s) && Can(s, t, call) && u < |s.threads| && u != t
    ensures ThreadOk(Step(s, t, call), u)
  {
    assert ThreadOk(s, t) && ThreadOk(s, u);
    if s.owner2.Some? { assert ThreadOk(s, s.owner2.value); }
  }

  lemma StepKeepsInv(s: State, t: nat, call: Call)
    requires Inv(s) && Can(s, t, call)
    ensures Inv(Step(s, t, call))
  {
    OwnStep(s, t, call);
    UnownedStep(s, t, call);
    assert ThreadOk(s, t);
    forall u | 0 <= u < |s.threads| ensures ThreadOk(Step(s, t, call), u) {
      if u != t { OtherStep(s, t, call, u); }
    }
  }

  // ---- Runs ----

  datatype Move = Move(t: nat, call: Call)

  predicate Legal(s: State, moves: seq<Move>)
    decreases |moves|
  {
    moves == [] || (Can(s, moves[0].t, moves[0].call) && Legal(Step(s, moves[0].t, moves[0].call), moves[1..]))
  }

  function After(s: State, moves: seq<Move>): State
    requires Legal(s, moves)
    decreases |moves|
  {
    if moves == [] then s else After(Step(s, moves[0].t, moves[0].call), moves[1..])
  }

  predicate Quiet(s: State) {
    forall t :: 0 <= t < |s.threads| ==> s.threads[t].pc == Outside && s.threads[t].depth == 0
  }

  /** MemCheck_start has run, and no thread has done anything yet. */
  predicate Started(s: State) {
    Quiet(s) && s.writer.None? && s.readers == {} && s.owner2.None? && s.enable && s.numDisable == 0
  }

  lemma {:induction false} InvOverRuns(s: State, moves: seq<Move>)
    requires Inv(s) && Legal(s, moves)
    ensures Inv(After(s, moves))
    decreases |moves|
  {
    if moves != [] {
      StepKeepsInv(s, moves[0].t, moves[0].call);
      InvOverRuns(Step(s, moves[0].t, moves[0].call), moves[1..]);
    }
  }

  predicate Reached(s: State, from: State, moves: seq<Move>) {
    Started(from) && Legal(from, moves) && After(from, moves) == s
  }

  lemma ReachedInv(s: State, from: State, moves: seq<Move>)
    requires Reached(s, from, moves)
    ensures Inv(s)
  {
    assert Inv(from);
    InvOverRuns(from, moves);
  }

  /**
   * In every reachable state: while MALLOC is free, checking is disabled exactly when the count is positive,
   * and then MALLOC2 is held by the thread on record, which has switched off as often as the count says. At
   * any time at most one thread has checking switched off.
   */
  lemma DisabledMeansLocked(s: State, from: State, moves: seq<Move>)
    requires Reached(s, from, moves)
    ensures s.writer.None? ==> (s.numDisable > 0 <==> !s.enable)
    ensures s.writer.None? && s.numDisable > 0 ==>
            s.owner2 == Some(s.disabler) && s.disabler < |s.threads| && s.threads[s.disabler].depth == s.numDisable
    ensures forall t, u | 0 <= t < u < |s.threads| :: s.threads[t].depth == 0 || s.threads[u].depth == 0
  {
    ReachedInv(s, from, moves);
    if s.owner2.Some? { assert ThreadOk(s, s.owner2.value); }
    forall t | 0 <= t < |s.threads| ensures s.threads[t].depth > 0 ==> s.owner2 == Some(t) { assert ThreadOk(s, t); }
  }

  /** MALLOC2 can also be held with a count of zero: by the one thread that has it and still waits for MALLOC. */
  lemma Malloc2HeldIff(s: State, from: State, moves: seq<Move>)
    requires Reached(s, from, moves) && s.writer.None?
    ensures s.owner2.Some? <==>
            s.numDisable > 0 || exists t :: 0 <= t < |s.threads| && s.threads[t].pc == OffRelock
  {
    ReachedInv(s, from, moves);
    if s.owner2.Some? { assert ThreadOk(s, s.owner2.value); }
    forall t | 0 <= t < |s.threads| && s.threads[t].pc == OffRelock ensures s.owner2.Some? { assert ThreadOk(s, t); }
  }

  /** No thread waits for MALLOC2 while it holds MALLOC in any way. */
  lemma NoHoldAndWait(s: State, from: State, moves: seq<Move>, t: nat)
    requires Reached(s, from, moves) && t < |s.threads| && s.threads[t].pc == OffLock2
    ensures s.writer != Some(t) && t !in s.readers && s.owner2 != Some(t)
  {
    ReachedInv(s, from, moves);
    assert ThreadOk(s, t);
  }

  /** CRYPTO_is_mem_check_on answers false exactly to the thread that has switched checking off. */
  lemma AnswerIff(s: State, from: State, moves: seq<Move>, t: nat)
    requires Reached(s, from, moves) && t < |s.threads| && s.threads[t].pc == AskUnlock
    ensures s.threads[t].answer <==> s.threads[t].depth == 0
  {
    ReachedInv(s, from, moves);
    assert ThreadOk(s, t);
  }

  // ---- No reachable state is a trap ----

  /** An upper bound on the steps until a thread is outside with checking on. */
  function Work(th: Thread): nat {
    2 + 6 * th.depth +
    match th.pc
    case Outside => 0
    case OffLock => 15
    case OffTest => 14
    case OffUnlockFirst => 13
    case OffLock2 => 12
    case OffRelock => 11
    case OffClear => 10
    case OffCopy => 9
    case OffCount => 8
    case OffUnlock => 1
    case OnLock => -1
    case OnCount => -2
    case OnEnable => 3
    case OnUnlock2 => 2
    case OnUnlock => 1
    case AskLock => 3
    case AskRead => 2
    case AskUnlock => 1
  }

  function AllWork(threads: seq<Thread>): nat {
    if threads == [] then 0 else Work(threads[0]) + AllWork(threads[1..])
  }

  lemma {:induction false} WorkAfterUpdate(threads: seq<Thread>, t: nat, th: Thread)
    requires t < |threads|
    ensures AllWork(threads[t := th]) == AllWork(threads) - Work(threads[t]) + Work(th)
  {
    if t == 0 {
      assert threads[0 := th][1..] == threads[1..];
    } else {
      assert threads[t := th][1..] == threads[1..][t - 1 := th];
      WorkAfterUpdate(threads[1..], t - 1, th);
    }
  }

  lemma StepIsLocal(s: State, t: nat, call: Call)
    requires Can(s, t, call)
    ensures t < |Step(s, t, call).threads|
    ensures Step(s, t, call).threads == s.threads[t := Step(s, t, call).threads[t]]
  {
  }

  lemma StepWorks(s: State, t: nat)
    requires Inv(s) && Can(s, t, On)
    ensures |Step(s, t, On).threads| == |s.threads| && Work(Step(s, t, On).threads[t]) < Work(s.threads[t])
  {
    assert ThreadOk(s, t);
  }

  /** In no reachable state is every thread that is inside a call, or has checking off, blocked. */
  lemma SomeoneCan(s: State) returns (t: nat)
    requires Inv(s) && !Quiet(s)
    ensures Can(s, t, On)
  {
    if s.writer.Some? {
      t := s.writer.value;
      assert ThreadOk(s, t);
    } else if s.readers != {} {
      t :| t in s.readers;
      assert ThreadOk(s, t);
    } else {
      t :| t < |s.threads| && !(s.threads[t].pc == Outside && s.threads[t].depth == 0);
      if s.threads[t].pc == OffLock2 && s.owner2.Some? {
        t := s.owner2.value;
        assert ThreadOk(s, t);
      }
    }
  }

  /** From every reachable state some run lets every thread finish its calls and switch checking on again. */
  lemma {:induction false} CanAlwaysFinish(s: State) returns (moves: seq<Move>)
    requires Inv(s)
    ensures Legal(s, moves) && Started(After(s, moves))
    decreases AllWork(s.threads)
  {
    if Quiet(s) {
      moves := [];
      QuietIsStarted(s);
    } else {
      var t := SomeoneCan(s);
      var s' := Step(s, t, On);
      StepKeepsInv(s, t, On);
      StepWorks(s, t);
      StepIsLocal(s, t, On);
      WorkAfterUpdate(s.threads, t, s'.threads[t]);
      var rest := CanAlwaysFinish(s');
      moves := [Move(t, On)] + rest;
      assert moves[1..] == rest;
    }
  }

  lemma QuietIsStarted(s: State)
    requires Inv(s) && Quiet(s)
    ensures Started(s)
  {
    forall t | 0 <= t < |s.threads| ensures s.writer != Some(t) && s.owner2 != Some(t) && t !in s.readers {
      assert ThreadOk(s, t);
    }
  }

  /** Every run from the start can be carried on until all threads are done. */
  lemma NoDeadlock(s: State, from: State, moves: seq<Move>) returns (more: seq<Move>)
    requires Reached(s, from, moves)
    ensures Legal(s, more) && Started(After(s, more))
  {
    ReachedInv(s, from, moves);
    more := CanAlwaysFinish(s);
  }
}
