/** What the calls of a thread come to: what it gets, what it gives up, and that it comes back. */
module SyncCallTheorems {
  import opened Sequences
  import opened SrwLock
  import opened SyncSystem
  import opened SyncLockInvariant
  import opened SyncSleepInvariant
  import opened SyncTheorems

  // ----- the critical section -----

  predicate TakesSection(s: State, step: Step)
    requires Enabled(s, step)
  {
    || (step.OnLock? && step.op == EnterSection)
    || (step.OnCv? && step.cv == Reacquire && s.threads[step.t].pc.guard == BySection)
  }

  predicate GivesSection(s: State, step: Step)
    requires Enabled(s, step)
  {
    || (step.OnLock? && step.op == LeaveSection)
    || (step.OnCv? && step.cv == Release && s.threads[step.t].pc.guard == BySection)
  }

  lemma SectionOnLock(s: State, t: Tid, op: LockOp)
    requires t in s.threads && CanDoLock(s, t, op)
    ensures DoLock(s, t, op).section ==
      if op == EnterSection then Some(t) else if op == LeaveSection then None else s.section
  {
    hide RetryExclusive, EnterExclusive, TryExclusive, ReleaseExclusive, EnterShared, TryShared, ReleaseShared;
  }

  lemma SectionOnCv(s: State, t: Tid, op: SleepOp)
    requires t in s.threads && CanDoCv(s, t, op)
    ensures DoCv(s, t, op).section ==
      if op == Reacquire && s.threads[t].pc.guard == BySection then Some(t)
      else if op == Release && s.threads[t].pc.guard == BySection then None
      else s.section
  {
    hide EnterExclusive, ReleaseExclusive, EnterShared, ReleaseShared, Without;
    if op == Reacquire {
      match s.threads[t].pc.guard {
        case ByExclusive =>
        case ByShared =>
        case BySection =>
      }
    }
  }

  /** The section changes hands only from nobody to the thread that takes it and from its owner to nobody. */
  lemma SectionMoves(s: State, step: Step)
    requires GuardInv(s) && Enabled(s, step)
    ensures Apply(s, step).section ==
      if TakesSection(s, step) then Some(step.t) else if GivesSection(s, step) then None else s.section
    ensures TakesSection(s, step) ==> s.section == None
    ensures GivesSection(s, step) ==> s.section == Some(step.t)
  {
    hide DoLock, DoCv;
    assert GuardOk(s, step.t);
    match step
    case OnLock(t, op) => SectionOnLock(s, t, op);
    case OnCv(t, op) => SectionOnCv(s, t, op);
  }

  /** The thread sleeps on the section and has let go of it. */
  predicate AwayFromSection(pc: Pc) {
    (pc.Asleep? || pc.Roused? || pc.Reacquiring?) && pc.guard == BySection
  }

  predicate AwayInv(s: State) {
    forall t :: t in s.threads && AwayFromSection(s.threads[t].pc) ==> s.section != Some(t)
  }

  /** A thread comes to be away by giving the section up, and comes back by taking it. */
  lemma AwayMoves(s: State, step: Step)
    requires Enabled(s, step)
    ensures step.t in Apply(s, step).threads
    ensures AwayFromSection(Apply(s, step).threads[step.t].pc) ==>
      AwayFromSection(s.threads[step.t].pc) || GivesSection(s, step)
    ensures AwayFromSection(Apply(s, step).threads[step.t].pc) ==> !TakesSection(s, step)
  {
    hide DoLock, DoCv, AwayFromSection;
    match step
    case OnLock(t, op) => AwayOnLock(s, t, op);
    case OnCv(t, op) => AwayOnCv(s, t, op);
  }

  lemma AwayOnLock(s: State, t: Tid, op: LockOp)
    requires t in s.threads && CanDoLock(s, t, op)
    ensures t in DoLock(s, t, op).threads && !AwayFromSection(DoLock(s, t, op).threads[t].pc)
  {
    hide AfterWriteAttempt, AfterReadAttempt;
    hide RetryExclusive, EnterExclusive, TryExclusive, ReleaseExclusive, EnterShared, TryShared, ReleaseShared;
    if op.AcquireExclusive? {
      AttemptNotAway(s, t, EnterExclusive(s.lock), Program);
    } else if op.RetryWrite? {
      AttemptNotAway(s, t, RetryExclusive(s.lock), s.threads[t].pc.who);
    } else if op.AcquireShared? {
      AttemptNotAway(s, t, EnterShared(s.lock), Program);
    } else if op.RetryRead? {
      AttemptNotAway(s, t, EnterShared(s.lock), s.threads[t].pc.who);
    }
  }

  lemma AttemptNotAway(s: State, t: Tid, a: Attempt, who: Caller)
    requires t in s.threads
    ensures t in AfterWriteAttempt(s, t, a, who).threads && t in AfterReadAttempt(s, t, a, who).threads
    ensures !AwayFromSection(AfterWriteAttempt(s, t, a, who).threads[t].pc)
    ensures !AwayFromSection(AfterReadAttempt(s, t, a, who).threads[t].pc)
  {
  }

  lemma AwayOnCv(s: State, t: Tid, op: SleepOp)
    requires t in s.threads && CanDoCv(s, t, op)
    ensures t in DoCv(s, t, op).threads
    ensures AwayFromSection(DoCv(s, t, op).threads[t].pc) ==>
      && (AwayFromSection(s.threads[t].pc) || (op == Release && s.threads[t].pc.guard == BySection))
      && op != Reacquire
  {
    hide DoReacquire, ReleaseExclusive, ReleaseShared, Without;
    if op.Reacquire? { NotAwayAgain(s, t, s.threads[t].pc.guard, s.threads[t].pc.signaled); }
  }

  lemma NotAwayAgain(s: State, t: Tid, g: Guard, signaled: bool)
    requires t in s.threads
    ensures t in DoReacquire(s, t, g, signaled).threads
    ensures !AwayFromSection(DoReacquire(s, t, g, signaled).threads[t].pc)
  {
    hide EnterExclusive, EnterShared;
  }

  lemma AwayStep(s: State, step: Step)
    requires GuardInv(s) && AwayInv(s) && Enabled(s, step)
    ensures AwayInv(Apply(s, step))
  {
    hide Apply;
    var after := Apply(s, step);
    SectionMoves(s, step);
    AwayMoves(s, step);
    forall u | u in after.threads && AwayFromSection(after.threads[u].pc) ensures after.section != Some(u) {
      if u != step.t {
        assert GuardOk(s, step.t);
        OthersStay(s, step, u);
      }
    }
  }

  lemma {:induction false} AwayAlways(states: seq<State>, steps: seq<Step>, k: nat)
    requires Run(states, steps) && k < |states|
    ensures AwayInv(states[k])
  {
    hide Apply;
    if k > 0 {
      AwayAlways(states, steps, k - 1);
      RunInv(states, steps, k - 1);
      assert Enabled(states[k - 1], steps[k - 1]) && states[k] == Apply(states[k - 1], steps[k - 1]);
      AwayStep(states[k - 1], steps[k - 1]);
    }
  }

  /**
   A sleeper holds nothing of what it went to sleep with, in any of the three modes, until it takes it back; and what
   keeps a sleeper from taking the section back is another thread that owns it.
  */
  lemma SleepersHaveLetGo(states: seq<State>, steps: seq<Step>, k: nat, t: Tid)
    requires Run(states, steps) && k < |states| && t in states[k].threads
    requires var pc := states[k].threads[t].pc; pc.Asleep? || pc.Roused? || pc.Reacquiring?
    ensures var s := states[k]; var g := s.threads[t].pc.guard;
      && !HasGuard(s, t, g)
      && (s.threads[t].pc.Reacquiring? && !Enabled(s, OnCv(t, Reacquire)) ==>
        g == BySection && s.section.Some? && s.section.value != t)
  {
    RunInv(states, steps, k);
    AwayAlways(states, steps, k);
    assert GuardOk(states[k], t);
  }

  // ----- acquiring -----

  /** Nobody is inside. */
  predicate Free(s: State) { forall t :: t in s.threads ==> s.threads[t].hold == Nothing }

  /** No writer is inside or waits. */
  predicate FreeToRead(s: State) {
    forall t :: t in s.threads ==> s.threads[t].hold != Exclusive && !WaitingToWrite(s.threads[t])
  }

  lemma LockSays(s: State)
    requires LockInv(s)
    ensures Free(s) <==> s.lock.writerActive == 0 && s.lock.readers == 0
    ensures FreeToRead(s) <==> s.lock.writerActive == 0 && s.lock.writersWaiting == 0
  {
    hide LockInv;
    Emptiness(s);
  }

  /** What a thread may hold and do behind a step of its call, with the lock free for it or not. */
  predicate Comes(me: Thread, op: LockOp, free: bool) {
    match op
    case AcquireExclusive => if free then me.pc == Ready && me.hold == Exclusive else me.pc == ParkedExclusive(Program)
    case TryWrite => me.pc == Ready && me.hold == if free then Exclusive else Nothing
    case RetryWrite => if free then me.pc == Ready && me.hold == Exclusive else me.pc.ParkedExclusive?
    case AcquireShared => if free then me.pc == Ready && me.hold == Shared else me.pc == ParkedShared(Program)
    case TryRead => me.pc == Ready && me.hold == if free then Shared else Nothing
    case RetryRead => if free then me.pc == Ready && me.hold == Shared else me.pc.ParkedShared?
    case EndWrite => me.pc == Ready && me.hold == Nothing
    case EndRead => me.pc == Ready && me.hold == Nothing
    case _ => true
  }

  /**
   A writer is let in exactly when nobody is inside, a reader exactly when no writer is inside or waits, whether it
   tries once, asks first or asks again; who is refused waits, or returns without the lock; who leaves holds nothing.
  */
  lemma AdmittedExactlyWhenFree(states: seq<State>, steps: seq<Step>, k: nat)
    requires Run(states, steps) && k < |steps| && steps[k].OnLock?
    ensures var s, t, op := states[k], steps[k].t, steps[k].op;
      t in states[k + 1].threads &&
      Comes(states[k + 1].threads[t], op,
        if op in {AcquireExclusive, TryWrite, RetryWrite} then Free(s) else FreeToRead(s))
  {
    RunInv(states, steps, k);
    LockSays(states[k]);
    assert Enabled(states[k], steps[k]) && states[k + 1] == Apply(states[k], steps[k]);
    AdmittedByLock(states[k], steps[k].t, steps[k].op);
  }

  lemma AdmittedByLock(s: State, t: Tid, op: LockOp)
    requires t in s.threads && CanDoLock(s, t, op)
    ensures t in DoLock(s, t, op).threads &&
      Comes(DoLock(s, t, op).threads[t], op,
        if op in {AcquireExclusive, TryWrite, RetryWrite} then s.lock.writerActive == 0 && s.lock.readers == 0
        else s.lock.writerActive == 0 && s.lock.writersWaiting == 0)
  {
    hide ReleaseExclusive, ReleaseShared;
    if op in {AcquireExclusive, TryWrite, RetryWrite} {
      WriterAdmitted(s, t, op);
    } else {
      hide EnterExclusive, TryExclusive, RetryExclusive;
    }
  }

  lemma WriterAdmitted(s: State, t: Tid, op: LockOp)
    requires t in s.threads && CanDoLock(s, t, op) && op in {AcquireExclusive, TryWrite, RetryWrite}
    ensures t in DoLock(s, t, op).threads
    ensures Comes(DoLock(s, t, op).threads[t], op, s.lock.writerActive == 0 && s.lock.readers == 0)
  {
    hide ReleaseExclusive, ReleaseShared, EnterShared, TryShared;
  }

  // ----- coming back from a sleep -----

  /** What the sleeper went to sleep with can be had at once. */
  predicate Available(s: State, g: Guard) {
    match g
    case ByExclusive => s.lock.canWrite
    case ByShared => s.lock.canRead
    case BySection => s.section == None
  }

  /** Steps of `t` alone end its sleep: it is ready, has `g` again, and its call has answered `answer`. */
  ghost predicate ComesBack(s: State, t: Tid, g: Guard, answer: bool, steps: seq<Step>)
    requires t in s.threads
  {
    && (forall i :: 0 <= i < |steps| ==> steps[i].t == t)
    && CanRun(s, steps)
    && var after := RunFrom(s, steps); var n := s.threads[t].ticket;
      && t in after.threads && after.threads[t].pc == Ready && HasGuard(after, t, g)
      && n in after.answers && after.answers[n] == answer
  }

  lemma OneMoreStep(s: State, t: Tid, g: Guard, answer: bool, step: Step, rest: seq<Step>)
    requires t in s.threads && step.t == t && Enabled(s, step)
    requires t in Apply(s, step).threads && Apply(s, step).threads[t].ticket == s.threads[t].ticket
    requires ComesBack(Apply(s, step), t, g, answer, rest)
    ensures ComesBack(s, t, g, answer, [step] + rest)
  {
    hide Apply, Enabled;
    Prepend(s, step, rest);
  }

  lemma TakesBack(s: State, t: Tid)
    requires LockInv(s) && t in s.threads && s.threads[t].pc.Reacquiring? && Available(s, s.threads[t].pc.guard)
    ensures ComesBack(s, t, s.threads[t].pc.guard, s.threads[t].pc.signaled, [OnCv(t, Reacquire)])
  {
    var step, pc := OnCv(t, Reacquire), s.threads[t].pc;
    assert EventsAgree(s.lock);
    Reacquired(s, t, pc.guard, pc.signaled);
    assert Apply(s, step) == DoReacquire(s, t, pc.guard, pc.signaled);
    hide DoReacquire, Apply;
    Prepend(s, step, []);
    assert [step] + [] == [step];
  }

  lemma Reacquired(s: State, t: Tid, g: Guard, signaled: bool)
    requires t in s.threads && EventsAgree(s.lock) && Available(s, g)
    ensures var after, n := DoReacquire(s, t, g, signaled), s.threads[t].ticket;
      && t in after.threads && after.threads[t].pc == Ready && HasGuard(after, t, g)
      && n in after.answers && after.answers[n] == signaled
  {
  }

  /** A sleeper whose wait is over leaves the queue, if it is still there, and takes its lock back. */
  lemma ComesBackRoused(s: State, t: Tid) returns (steps: seq<Step>)
    requires LockInv(s) && SleepInv(s) && t in s.threads && s.threads[t].pc.Roused?
    requires s.gate == Open && Available(s, s.threads[t].pc.guard)
    ensures steps == [OnCv(t, Dequeue), OnCv(t, Reacquire)]
    ensures ComesBack(s, t, s.threads[t].pc.guard, s.threads[t].ticket in s.signals, steps)
  {
    var step, pc := OnCv(t, Dequeue), s.threads[t].pc;
    assert Enabled(s, step) && Apply(s, step) == DoDequeue(s, t, pc.guard, pc.result);
    hide Apply, Enabled, DoDequeue, SleepInv, ComesBack, LockInv, Available, CanRun, RunFrom, HasGuard;
    var s1 := Apply(s, step);
    DequeueAnswers(s, t, pc.guard, pc.result);
    DequeueKeepsLock(s, t, pc.guard, pc.result);
    SameAvailable(s, s1, pc.guard);
    TakesBack(s1, t);
    OneMoreStep(s, t, pc.guard, s1.threads[t].pc.signaled, step, [OnCv(t, Reacquire)]);
    steps := [step] + [OnCv(t, Reacquire)];
  }

  lemma DequeueKeepsLock(s: State, t: Tid, g: Guard, r: WaitResult)
    requires LockInv(s) && t in s.threads && s.threads[t].pc == Roused(g, r)
    ensures LockInv(DoDequeue(s, t, g, r))
  {
    hide Without;
    OtherPutKeepsLock(s, t, DoDequeue(s, t, g, r).threads[t]);
  }

  lemma DequeueAnswers(s: State, t: Tid, g: Guard, r: WaitResult)
    requires SleepInv(s) && t in s.threads && s.threads[t].pc == Roused(g, r) && s.gate == Open
    ensures var s1 := DoDequeue(s, t, g, r);
      && t in s1.threads && s1.threads[t].ticket == s.threads[t].ticket
      && s1.threads[t].pc == Reacquiring(g, s.threads[t].ticket in s.signals)
      && s1.lock == s.lock && s1.section == s.section
  {
    hide Without, AnswersOk, GateOk;
    var n := s.threads[t].ticket;
    assert n in s.nodes && NodeOk(s, n);
    if n in s.signals { SignaledIsGone(s, n); }
  }

  lemma SignaledIsGone(s: State, n: nat)
    requires HistoryOk(s) && n in s.signals && s.gate == Open
    ensures n !in s.queue
  {
    var i :| 0 <= i < |s.signals| && s.signals[i] == n;
    forall j | 0 <= j < |s.queue| ensures s.queue[j] != n {
      assert Order(s)[i] == n && Order(s)[|s.signals| + j] == s.queue[j];
    }
  }

  /**
   A signaled sleeper needs nobody's help: as soon as the gate and its lock are free its own steps bring it back with
   that lock and the answer TRUE, with no timeout among them.
  */
  lemma SignaledSleeperReturns(states: seq<State>, steps: seq<Step>, k: nat, t: Tid) returns (own: seq<Step>)
    requires Run(states, steps) && k < |states| && t in states[k].threads && states[k].threads[t].pc.Asleep?
    requires states[k].threads[t].ticket in states[k].signals
    requires states[k].gate == Open && Available(states[k], states[k].threads[t].pc.guard)
    ensures own == [OnCv(t, EventSeen), OnCv(t, Dequeue), OnCv(t, Reacquire)]
    ensures ComesBack(states[k], t, states[k].threads[t].pc.guard, true, own)
  {
    RunInv(states, steps, k);
    own := ReturnsBy(states[k], t, EventSeen);
  }

  /** Nor does one that nobody signals, once its time is over: it comes back with its lock and the answer FALSE. */
  lemma TimedOutSleeperReturns(states: seq<State>, steps: seq<Step>, k: nat, t: Tid, r: WaitResult)
    returns (own: seq<Step>)
    requires Run(states, steps) && k < |states| && t in states[k].threads && states[k].threads[t].pc.Asleep?
    requires states[k].threads[t].ticket !in states[k].signals && r != Signaled
    requires states[k].gate == Open && Available(states[k], states[k].threads[t].pc.guard)
    ensures own == [OnCv(t, Expires(r)), OnCv(t, Dequeue), OnCv(t, Reacquire)]
    ensures ComesBack(states[k], t, states[k].threads[t].pc.guard, false, own)
  {
    RunInv(states, steps, k);
    own := ReturnsBy(states[k], t, Expires(r));
  }

  lemma ReturnsBy(s: State, t: Tid, op: SleepOp) returns (own: seq<Step>)
    requires Inv(s) && t in s.threads && s.threads[t].pc.Asleep?
    requires if op == EventSeen then s.threads[t].ticket in s.signals else op.Expires? && op.result != Signaled
    requires s.gate == Open && Available(s, s.threads[t].pc.guard)
    ensures own == [OnCv(t, op), OnCv(t, Dequeue), OnCv(t, Reacquire)]
    ensures ComesBack(s, t, s.threads[t].pc.guard, s.threads[t].ticket in s.signals, own)
  {
    hide DoCv, Inv, ComesBack, LockInv, SleepInv, Available;
    var step, g := OnCv(t, op), s.threads[t].pc.guard;
    WaitCanEnd(s, t, op);
    StepInv(s, step);
    WaitEnds(s, t, op);
    var s1 := Apply(s, step);
    InvParts(s1);
    assert Available(s1, g) by { SameAvailable(s, s1, g); }
    var rest := ComesBackRoused(s1, t);
    OneMoreStep(s, t, g, s.threads[t].ticket in s.signals, step, rest);
    own := [step] + rest;
  }

  lemma WaitCanEnd(s: State, t: Tid, op: SleepOp)
    requires Inv(s) && t in s.threads && s.threads[t].pc.Asleep?
    requires if op == EventSeen then s.threads[t].ticket in s.signals else op.Expires? && op.result != Signaled
    ensures Enabled(s, OnCv(t, op))
  {
    hide LockInv, GuardInv, HistoryOk, AnswersOk, GateOk;
    assert NodeOk(s, s.threads[t].ticket);
  }

  lemma SameAvailable(s: State, r: State, g: Guard)
    requires Available(s, g) && r.lock == s.lock && r.section == s.section
    ensures Available(r, g)
  {
  }

  lemma InvParts(s: State)
    requires Inv(s)
    ensures LockInv(s) && SleepInv(s)
  {
  }

  lemma WaitEnds(s: State, t: Tid, op: SleepOp)
    requires t in s.threads && s.threads[t].pc.Asleep? && CanDoCv(s, t, op) && (op == EventSeen || op.Expires?)
    ensures var s1 := DoCv(s, t, op);
      && t in s1.threads && s1.threads[t].ticket == s.threads[t].ticket
      && s1.threads[t].pc.Roused? && s1.threads[t].pc.guard == s.threads[t].pc.guard
      && s1.lock == s.lock && s1.section == s.section && s1.gate == s.gate && s1.signals == s.signals
  {
  }

  // ----- a wake-all walk -----

  lemma NextOfWalk(s: State, w: Tid)
    requires w in s.threads && s.threads[w].pc == WakingAll && s.gate.Walking? && s.gate.waker == w && s.gate.rest != []
    ensures Enabled(s, OnCv(w, WakeAllNext))
    ensures var s1 := Apply(s, OnCv(w, WakeAllNext));
      && w in s1.threads && s1.threads[w].pc == WakingAll && s1.gate == Walking(w, s.gate.rest[1..])
      && s1.signals == s.signals + [s.gate.rest[0]]
  {
  }

  lemma LastOfWalk(s: State, w: Tid)
    requires w in s.threads && s.threads[w].pc == WakingAll && s.gate == Walking(w, [])
    ensures Enabled(s, OnCv(w, WakeAllEnd))
    ensures var s1 := Apply(s, OnCv(w, WakeAllEnd));
      w in s1.threads && s1.threads[w].pc == Ready && s1.gate == Open && s1.signals == s.signals
  {
  }

  /** The waker alone brings its walk to its end, whatever else waits. */
  lemma {:induction false} WalkEnds(s: State, w: Tid) returns (own: seq<Step>)
    requires w in s.threads && s.threads[w].pc == WakingAll && s.gate.Walking? && s.gate.waker == w
    ensures |own| == |s.gate.rest| + 1 && forall i :: 0 <= i < |own| ==> own[i].t == w
    ensures CanRun(s, own)
    ensures var after := RunFrom(s, own);
      after.gate == Open && w in after.threads && after.threads[w].pc == Ready
      && after.signals == s.signals + s.gate.rest
    decreases |s.gate.rest|
  {
    hide Apply, Enabled;
    if s.gate.rest == [] {
      LastOfWalk(s, w);
      Prepend(s, OnCv(w, WakeAllEnd), []);
      own := [OnCv(w, WakeAllEnd)] + [];
      assert s.signals + [] == s.signals;
    } else {
      var step := OnCv(w, WakeAllNext);
      NextOfWalk(s, w);
      var s1 := Apply(s, step);
      var rest := WalkEnds(s1, w);
      Prepend(s, step, rest);
      own := [step] + rest;
      assert s.signals + [s.gate.rest[0]] + s.gate.rest[1..] == s.signals + s.gate.rest;
    }
  }
}
