/** The lock half of the inductive invariant: counters, events, and who holds what. */
module SyncLockInvariant {
  import opened Sequences
  import opened SrwLock
  import opened SyncSystem

  predicate WaitingToWrite(me: Thread) { me.pc.ParkedExclusive? || me.pc.WokenExclusive? }

  predicate WaitingToRead(me: Thread) { me.pc.ParkedShared? || me.pc.WokenShared? }

  function Holders(threads: map<Tid, Thread>, h: Hold): set<Tid> {
    set t | t in threads && threads[t].hold == h
  }

  function Writers(threads: map<Tid, Thread>): set<Tid> {
    set t | t in threads && WaitingToWrite(threads[t])
  }

  /** The counters are exact, at most one side is inside, and the events say so. */
  predicate LockInv(s: State) {
    && s.lock.readers == |Holders(s.threads, Shared)|
    && s.lock.writerActive == |Holders(s.threads, Exclusive)|
    && s.lock.writersWaiting == |Writers(s.threads)|
    && (s.lock.writerActive == 0 || (s.lock.writerActive == 1 && s.lock.readers == 0))
    && EventsAgree(s.lock)
  }

  /** What a thread holds at each point of each call. */
  predicate GuardInv(s: State) {
    forall t :: t in s.threads ==> GuardOk(s, t)
  }

  predicate GuardOk(s: State, t: Tid)
    requires t in s.threads
  {
    var me := s.threads[t];
    match me.pc
    case Ready => true
    case WakingAll => true
    case Enqueued(g) => HasGuard(s, t, g)
    case Asleep(g) => g != BySection ==> me.hold == Nothing
    case Roused(g, _) => g != BySection ==> me.hold == Nothing
    case Reacquiring(g, _) => g != BySection ==> me.hold == Nothing
    case ParkedExclusive(w) => me.hold == Nothing && (w.Sleeper? ==> w.guard == ByExclusive)
    case WokenExclusive(w) => me.hold == Nothing && (w.Sleeper? ==> w.guard == ByExclusive)
    case ParkedShared(w) => me.hold == Nothing && (w.Sleeper? ==> w.guard == ByShared)
    case WokenShared(w) => me.hold == Nothing && (w.Sleeper? ==> w.guard == ByShared)
  }

  /** Replacing one thread's record moves each count by that thread alone. */
  lemma Recount(threads: map<Tid, Thread>, t: Tid, me: Thread)
    requires t in threads
    ensures forall h :: |Holders(threads[t := me], h)|
                     == |Holders(threads, h)| - (if threads[t].hold == h then 1 else 0)
                       + (if me.hold == h then 1 else 0)
    ensures |Writers(threads[t := me])|
         == |Writers(threads)| - (if WaitingToWrite(threads[t]) then 1 else 0) + (if WaitingToWrite(me) then 1 else 0)
  {
    var after := threads[t := me];
    forall h ensures Holders(after, h) - {t} == Holders(threads, h) - {t} {}
    forall h
      ensures |Holders(after, h)|
        == |Holders(threads, h)| - (if threads[t].hold == h then 1 else 0) + (if me.hold == h then 1 else 0)
    {
      Punctured(Holders(after, h), t);
      Punctured(Holders(threads, h), t);
    }
    assert Writers(after) - {t} == Writers(threads) - {t};
    Punctured(Writers(after), t);
    Punctured(Writers(threads), t);
  }

  lemma WriteAttemptKeepsLock(s: State, t: Tid, a: Attempt, who: Caller)
    requires LockInv(s) && t in s.threads && s.threads[t].hold == Nothing
    requires if WaitingToWrite(s.threads[t]) then a == RetryExclusive(s.lock) else a == EnterExclusive(s.lock)
    ensures LockInv(AfterWriteAttempt(s, t, a, who))
  {
    var after := AfterWriteAttempt(s, t, a, who);
    Recount(s.threads, t, after.threads[t]);
  }

  lemma ReadAttemptKeepsLock(s: State, t: Tid, who: Caller)
    requires LockInv(s) && t in s.threads && s.threads[t].hold == Nothing && !WaitingToWrite(s.threads[t])
    ensures LockInv(AfterReadAttempt(s, t, EnterShared(s.lock), who))
  {
    var after := AfterReadAttempt(s, t, EnterShared(s.lock), who);
    Recount(s.threads, t, after.threads[t]);
  }

  /** A thread gives up what it holds. */
  lemma LeaveKeepsLock(s: State, t: Tid, me: Thread)
    requires LockInv(s) && t in s.threads && s.threads[t].hold != Nothing && me.hold == Nothing
    requires !WaitingToWrite(s.threads[t]) && !WaitingToWrite(me)
    ensures
      var released := if s.threads[t].hold == Exclusive then ReleaseExclusive(s.lock) else ReleaseShared(s.lock);
      LockInv(Put(s, t, me).(lock := released))
  {
    Recount(s.threads, t, me);
    assert t in Holders(s.threads, s.threads[t].hold);
  }

  lemma OtherPutKeepsLock(s: State, t: Tid, me: Thread)
    requires LockInv(s) && t in s.threads
    requires me.hold == s.threads[t].hold && WaitingToWrite(me) == WaitingToWrite(s.threads[t])
    ensures LockInv(Put(s, t, me))
  {
    Recount(s.threads, t, me);
  }

  lemma LockCallStep(s: State, t: Tid, op: LockOp)
    requires LockInv(s) && GuardInv(s) && t in s.threads && CanDoLock(s, t, op)
    ensures LockInv(DoLock(s, t, op))
  {
    var me, after := s.threads[t], DoLock(s, t, op);
    assert GuardOk(s, t);
    if op.AcquireExclusive? {
      WriteAttemptKeepsLock(s, t, EnterExclusive(s.lock), Program);
    } else if op.RetryWrite? {
      WriteAttemptKeepsLock(s, t, RetryExclusive(s.lock), me.pc.who);
    } else if op.AcquireShared? {
      ReadAttemptKeepsLock(s, t, Program);
    } else if op.RetryRead? {
      ReadAttemptKeepsLock(s, t, me.pc.who);
    } else if op.EndWrite? || op.EndRead? {
      LeaveKeepsLock(s, t, after.threads[t]);
    } else if op.TryWrite? || op.TryRead? {
      Recount(s.threads, t, after.threads[t]);
    } else if op.CanWriteSeen? || op.CanReadSeen? {
      OtherPutKeepsLock(s, t, after.threads[t]);
    }
  }

  lemma SameLock(s: State, s': State)
    requires LockInv(s) && s'.lock == s.lock && s'.threads == s.threads
    ensures LockInv(s')
  {
  }

  lemma SameLockPut(s: State, s': State, t: Tid, me: Thread)
    requires LockInv(s) && t in s.threads && s'.lock == s.lock && s'.threads == s.threads[t := me]
    requires me.hold == s.threads[t].hold && WaitingToWrite(me) == WaitingToWrite(s.threads[t])
    ensures LockInv(s')
  {
    OtherPutKeepsLock(s, t, me);
  }

  lemma ReleaseKeepsLock(s: State, t: Tid, g: Guard)
    requires LockInv(s) && t in s.threads && s.threads[t].pc == Enqueued(g) && HasGuard(s, t, g)
    ensures LockInv(DoRelease(s, t, g))
  {
    hide LockInv;
    var after := DoRelease(s, t, g);
    if g == BySection {
      SameLockPut(s, after, t, after.threads[t]);
    } else {
      LeaveKeepsLock(s, t, after.threads[t]);
    }
  }

  lemma ReacquireKeepsLock(s: State, t: Tid, g: Guard, signaled: bool)
    requires LockInv(s) && t in s.threads && s.threads[t].pc.Reacquiring?
    requires g != BySection ==> s.threads[t].hold == Nothing
    ensures LockInv(DoReacquire(s, t, g, signaled))
  {
    hide LockInv, EnterExclusive, EnterShared;
    match g
    case ByExclusive => WriteAttemptKeepsLock(s, t, EnterExclusive(s.lock), Sleeper(g, signaled));
    case ByShared => ReadAttemptKeepsLock(s, t, Sleeper(g, signaled));
    case BySection =>
      var after := DoReacquire(s, t, g, signaled);
      SameLockPut(s, after, t, after.threads[t]);
  }

  lemma LockCvStep(s: State, t: Tid, op: SleepOp)
    requires LockInv(s) && GuardInv(s) && t in s.threads && CanDoCv(s, t, op)
    ensures LockInv(DoCv(s, t, op))
  {
    hide Without, DoRelease, DoReacquire, LockInv;
    var me, after := s.threads[t], DoCv(s, t, op);
    assert GuardOk(s, t);
    if op.Release? {
      ReleaseKeepsLock(s, t, me.pc.guard);
    } else if op.Reacquire? {
      ReacquireKeepsLock(s, t, me.pc.guard, me.pc.signaled);
    } else if op.Wake? || op.WakeAllNext? {
      SameLock(s, after);
    } else {
      SameLockPut(s, after, t, after.threads[t]);
    }
  }

  /** Every step of every thread keeps the lock invariant. */
  lemma LockStep(s: State, step: Step)
    requires LockInv(s) && GuardInv(s) && Enabled(s, step)
    ensures LockInv(Apply(s, step))
  {
    match step
    case OnLock(t, op) => LockCallStep(s, t, op);
    case OnCv(t, op) => LockCvStep(s, t, op);
  }

  /** What a step of `t` may not touch as far as thread `u` goes. */
  predicate Leaves(s: State, s': State, u: Tid) {
    && (u in s'.threads <==> u in s.threads)
    && (u in s.threads ==> s'.threads[u] == s.threads[u])
    && (s.section == Some(u) ==> s'.section == Some(u))
  }

  lemma AttemptLeaves(s: State, t: Tid, a: Attempt, who: Caller, u: Tid)
    requires t in s.threads && u != t
    ensures Leaves(s, AfterWriteAttempt(s, t, a, who), u) && Leaves(s, AfterReadAttempt(s, t, a, who), u)
  {
  }

  lemma ReleaseLeaves(s: State, t: Tid, g: Guard, u: Tid)
    requires t in s.threads && u != t && (g == BySection ==> s.section == Some(t))
    ensures Leaves(s, DoRelease(s, t, g), u)
  {
    hide ReleaseExclusive, ReleaseShared;
  }

  lemma DequeueLeaves(s: State, t: Tid, g: Guard, r: WaitResult, u: Tid)
    requires t in s.threads && u != t
    ensures Leaves(s, DoDequeue(s, t, g, r), u)
  {
    hide Without;
  }

  lemma ReacquireLeaves(s: State, t: Tid, g: Guard, signaled: bool, u: Tid)
    requires t in s.threads && u != t && (g == BySection ==> s.section == None)
    ensures Leaves(s, DoReacquire(s, t, g, signaled), u)
  {
    hide AfterWriteAttempt, AfterReadAttempt, EnterExclusive, EnterShared;
    AttemptLeaves(s, t, EnterExclusive(s.lock), Sleeper(g, signaled), u);
    AttemptLeaves(s, t, EnterShared(s.lock), Sleeper(g, signaled), u);
  }

  lemma OthersStayOnLock(s: State, t: Tid, op: LockOp, u: Tid)
    requires t in s.threads && CanDoLock(s, t, op) && u != t
    ensures Leaves(s, DoLock(s, t, op), u)
  {
    hide AfterWriteAttempt, AfterReadAttempt;
    hide RetryExclusive, EnterExclusive, TryExclusive, ReleaseExclusive, EnterShared, TryShared, ReleaseShared;
    if op.AcquireExclusive? {
      AttemptLeaves(s, t, EnterExclusive(s.lock), Program, u);
    } else if op.RetryWrite? {
      AttemptLeaves(s, t, RetryExclusive(s.lock), s.threads[t].pc.who, u);
    } else if op.AcquireShared? {
      AttemptLeaves(s, t, EnterShared(s.lock), Program, u);
    } else if op.RetryRead? {
      AttemptLeaves(s, t, EnterShared(s.lock), s.threads[t].pc.who, u);
    }
  }

  lemma OthersStayOnCv(s: State, t: Tid, op: SleepOp, u: Tid)
    requires t in s.threads && CanDoCv(s, t, op) && GuardOk(s, t) && u != t
    ensures Leaves(s, DoCv(s, t, op), u)
  {
    hide DoRelease, DoDequeue, DoReacquire, Without;
    var me := s.threads[t];
    if op.Release? {
      ReleaseLeaves(s, t, me.pc.guard, u);
    } else if op.Dequeue? {
      DequeueLeaves(s, t, me.pc.guard, me.pc.result, u);
    } else if op.Reacquire? {
      ReacquireLeaves(s, t, me.pc.guard, me.pc.signaled, u);
    }
  }

  /** A step moves its own thread only, and takes the section only from nobody or from itself. */
  lemma OthersStay(s: State, step: Step, u: Tid)
    requires Enabled(s, step) && GuardOk(s, step.t) && u != step.t
    ensures Leaves(s, Apply(s, step), u)
  {
    hide DoLock, DoCv, GuardOk, Leaves;
    match step
    case OnLock(t, op) => OthersStayOnLock(s, t, op, u);
    case OnCv(t, op) => OthersStayOnCv(s, t, op, u);
  }

  lemma GuardWriteAttempt(s: State, t: Tid, a: Attempt, who: Caller)
    requires t in s.threads && s.threads[t].hold == Nothing && (who.Sleeper? ==> who.guard == ByExclusive)
    ensures var after := AfterWriteAttempt(s, t, a, who); t in after.threads && GuardOk(after, t)
  {
  }

  lemma GuardReadAttempt(s: State, t: Tid, a: Attempt, who: Caller)
    requires t in s.threads && s.threads[t].hold == Nothing && (who.Sleeper? ==> who.guard == ByShared)
    ensures var after := AfterReadAttempt(s, t, a, who); t in after.threads && GuardOk(after, t)
  {
  }

  lemma GuardCallStep(s: State, t: Tid, op: LockOp)
    requires t in s.threads && CanDoLock(s, t, op) && GuardOk(s, t)
    ensures t in DoLock(s, t, op).threads && GuardOk(DoLock(s, t, op), t)
  {
    hide AfterWriteAttempt, AfterReadAttempt;
    hide RetryExclusive, EnterExclusive, TryExclusive, ReleaseExclusive, EnterShared, TryShared, ReleaseShared;
    if op.AcquireExclusive? {
      GuardWriteAttempt(s, t, EnterExclusive(s.lock), Program);
    } else if op.RetryWrite? {
      GuardWriteAttempt(s, t, RetryExclusive(s.lock), s.threads[t].pc.who);
    } else if op.AcquireShared? {
      GuardReadAttempt(s, t, EnterShared(s.lock), Program);
    } else if op.RetryRead? {
      GuardReadAttempt(s, t, EnterShared(s.lock), s.threads[t].pc.who);
    }
  }

  lemma GuardReacquire(s: State, t: Tid, g: Guard, signaled: bool)
    requires t in s.threads && (g != BySection ==> s.threads[t].hold == Nothing)
    ensures t in DoReacquire(s, t, g, signaled).threads && GuardOk(DoReacquire(s, t, g, signaled), t)
  {
    hide EnterExclusive, EnterShared;
  }

  lemma GuardRelease(s: State, t: Tid, g: Guard)
    requires t in s.threads
    ensures t in DoRelease(s, t, g).threads && GuardOk(DoRelease(s, t, g), t)
  {
    hide ReleaseExclusive, ReleaseShared;
  }

  lemma GuardCvStep(s: State, t: Tid, op: SleepOp)
    requires t in s.threads && CanDoCv(s, t, op) && GuardInv(s)
    ensures t in DoCv(s, t, op).threads && GuardOk(DoCv(s, t, op), t)
  {
    hide DoReacquire, DoRelease, Without;
    assert GuardOk(s, t);
    if op.Release? { GuardRelease(s, t, s.threads[t].pc.guard); }
    if op.Reacquire? { GuardReacquire(s, t, s.threads[t].pc.guard, s.threads[t].pc.signaled); }
  }

  /** No step of any thread breaks what any thread is known to hold. */
  lemma GuardStep(s: State, step: Step)
    requires GuardInv(s) && Enabled(s, step)
    ensures GuardInv(Apply(s, step))
  {
    hide DoLock, DoCv, GuardOk, Leaves, CanDoLock, CanDoCv;
    var after := Apply(s, step);
    forall u | u in after.threads
      ensures GuardOk(after, u)
    {
      if u == step.t {
        OwnGuardStep(s, step);
      } else {
        OthersStay(s, step, u);
        GuardLeft(s, after, u);
      }
    }
  }

  lemma OwnGuardStep(s: State, step: Step)
    requires GuardInv(s) && Enabled(s, step)
    ensures step.t in Apply(s, step).threads && GuardOk(Apply(s, step), step.t)
  {
    hide DoLock, DoCv, GuardOk, CanDoLock, CanDoCv;
    match step
    case OnLock(t, op) => GuardCallStep(s, t, op);
    case OnCv(t, op) => GuardCvStep(s, t, op);
  }

  /** What a step leaves alone, it leaves as it was. */
  lemma GuardLeft(s: State, s': State, u: Tid)
    requires GuardInv(s) && Leaves(s, s', u) && u in s'.threads
    ensures GuardOk(s', u)
  {
    assert GuardOk(s, u);
  }
}
