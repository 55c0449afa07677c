/** What every run guarantees about sleeping on, and waking, the condition variable. */
module SyncSleepTheorems {
  import opened Sequences
  import opened SrwLock
  import opened SyncSystem
  import opened SyncLockInvariant
  import opened SyncSleepInvariant
  import opened SyncTheorems

  function Answered(s: State, answer: bool): set<nat> {
    set n | n in s.answers && s.answers[n] == answer
  }

  /** Live nodes a signaler has dequeued whose sleep has not returned yet. */
  function InTransit(s: State): set<nat> {
    set n | n in s.nodes && n in s.signals
  }

  /**
   Every node is dequeued at most once, by one signaler or by its own sleeper; a sleep returns TRUE
   exactly when a signaler dequeued it; and signals balance TRUE returns plus those on their way.
  */
  lemma ExactlyOnce(states: seq<State>, steps: seq<Step>, k: nat)
    requires Run(states, steps) && k < |states|
    ensures var s := states[k];
      && Distinct(s.signals) && Distinct(s.quits) && (forall n :: n in s.signals ==> n !in s.quits)
      && (forall n :: n in s.answers ==> (s.answers[n] <==> n in s.signals) && (!s.answers[n] <==> n in s.quits))
      && |s.signals| == |Answered(s, true)| + |InTransit(s)|
  {
    RunInv(states, steps, k);
    var s := states[k];
    assert forall i :: 0 <= i < |s.signals| ==> s.signals[i] == Order(s)[i];
    forall n | n in s.signals ensures n !in s.quits && n < s.issued { assert n in Order(s); }
    assert Elements(s.signals) == Answered(s, true) + InTransit(s);
    DistinctSize(s.signals);
  }

  /**
   First in, first out: nodes are numbered as they join the queue, and over a whole run the numbers
   signaled, whether one at a time or by wake-all walks, only go up and never skip a pending node.
  */
  lemma SignalsFollowTheQueue(states: seq<State>, steps: seq<Step>, k: nat)
    requires Run(states, steps) && k < |states|
    ensures Increasing(states[k].signals + Pending(states[k]))
    ensures forall n :: n in Pending(states[k]) ==> n in states[k].nodes && states[k].nodes[n].queued
    ensures forall n :: n in states[k].nodes && states[k].nodes[n].queued ==> n in Pending(states[k])
    ensures states[k].gate == Open ==> Pending(states[k]) == states[k].queue
  {
    RunInv(states, steps, k);
    var s := states[k];
    forall n | n in s.nodes ensures s.nodes[n].queued <==> n in Pending(s) { assert NodeOk(s, n); }
  }

  /** A single wake with somebody queued signals exactly the longest-queued node. */
  lemma WakeTakesTheOldest(states: seq<State>, steps: seq<Step>, k: nat)
    requires Run(states, steps) && k < |steps| && steps[k].OnCv? && steps[k].cv == Wake && states[k].queue != []
    ensures exists n :: n in states[k].queue && (forall m :: m in states[k].queue ==> n <= m)
                     && states[k + 1].signals == states[k].signals + [n]
                     && (forall m :: m in states[k].queue ==> m == n || m in states[k + 1].queue)
  {
    hide NodesOk, FramesOk, AnswersOk, LockInv, GuardInv, DoLock;
    var s, n := states[k], states[k].queue[0];
    RunInv(states, steps, k);
    RunInv(states, steps, k + 1);
    assert Pending(s) == s.queue;
    assert forall i :: 0 <= i < |s.queue| ==> s.queue[i] == Order(s)[|s.signals| + i];
    assert Distinct(s.queue);
    WithoutDistinct(s.queue, n);
  }

  /**
   Releasing the lock and falling asleep are one move as far as wakes can tell: from the moment the
   lock is gone, the sleeper is still queued, or a signaler has taken it and its event is set for it.
  */
  lemma ReleasedMeansWakeable(states: seq<State>, steps: seq<Step>, k: nat, t: Tid)
    requires Run(states, steps) && k < |states|
    requires t in states[k].threads && states[k].threads[t].pc.Asleep?
    ensures var s, n := states[k], states[k].threads[t].ticket;
      && n in s.nodes && s.nodes[n].owner == t
      && (n in Pending(s) || n in s.signals)
      && (n in s.signals <==> Enabled(s, OnCv(t, EventSeen)))
  {
    RunInv(states, steps, k);
    assert NodeOk(states[k], states[k].threads[t].ticket);
  }

  predicate IsWalk(states: seq<State>, steps: seq<Step>, i: nat, j: nat, w: Tid) {
    && i < j < |steps| < |states|
    && steps[i] == OnCv(w, WakeAllBegin) && steps[j] == OnCv(w, WakeAllEnd)
    && forall k :: i < k < j ==> steps[k] != OnCv(w, WakeAllEnd)
  }

  lemma ReacquireKeepsHistory(s: State, t: Tid, g: Guard, signaled: bool)
    requires t in s.threads
    ensures var s' := DoReacquire(s, t, g, signaled);
      s'.signals == s.signals && s'.quits == s.quits && s'.issued == s.issued
  {
    hide EnterExclusive, EnterShared;
  }

  lemma CvKeepsHistory(s: State, t: Tid, op: SleepOp)
    requires t in s.threads && CanDoCv(s, t, op)
    ensures s.signals <= DoCv(s, t, op).signals && s.quits <= DoCv(s, t, op).quits && s.issued <= DoCv(s, t, op).issued
  {
    hide DoReacquire, ReleaseExclusive, ReleaseShared, Without;
    if op.Reacquire? { ReacquireKeepsHistory(s, t, s.threads[t].pc.guard, s.threads[t].pc.signaled); }
  }

  /** Histories only grow. */
  lemma StepKeepsHistory(s: State, step: Step)
    requires Enabled(s, step)
    ensures s.signals <= Apply(s, step).signals && s.quits <= Apply(s, step).quits && s.issued <= Apply(s, step).issued
  {
    match step
    case OnLock(t, op) => assert Apply(s, step) == DoLock(s, t, op);
    case OnCv(t, op) => CvKeepsHistory(s, t, op);
  }

  /** Only the waker moves its walk on, one signal at a time. */
  lemma WalkStep(s: State, step: Step)
    requires GateOk(s) && s.gate.Walking? && Enabled(s, step) && step != OnCv(s.gate.waker, WakeAllEnd)
    ensures Apply(s, step).gate.Walking? && Apply(s, step).gate.waker == s.gate.waker
    ensures forall n :: n in s.gate.rest ==> n in Apply(s, step).gate.rest || n in Apply(s, step).signals
  {
    match step
    case OnLock(t, op) => assert DoLock(s, t, op).gate == s.gate;
    case OnCv(t, op) =>
      if op == WakeAllNext {
        assert s.gate.rest == [s.gate.rest[0]] + s.gate.rest[1..];
      } else {
        assert DoCv(s, t, op).gate == s.gate;
      }
  }

  lemma WalkStarts(s: State, w: Tid)
    requires Enabled(s, OnCv(w, WakeAllBegin))
    ensures Apply(s, OnCv(w, WakeAllBegin)).gate == Walking(w, s.queue)
  {
  }

  lemma {:induction false} WalkReaches(states: seq<State>, steps: seq<Step>, i: nat, j: nat, k: nat, w: Tid)
    requires Run(states, steps) && IsWalk(states, steps, i, j, w) && i < k <= j
    ensures states[k].gate.Walking? && states[k].gate.waker == w
    ensures forall n :: n in states[i].queue ==> n in states[k].gate.rest || n in states[k].signals
  {
    hide DoLock, DoCv, CanDoLock, CanDoCv, NodesOk, FramesOk, HistoryOk, AnswersOk, LockInv, GuardInv;
    var s, step := states[k - 1], steps[k - 1];
    assert Enabled(s, step) && states[k] == Apply(s, step);
    if i + 1 == k {
      WalkStarts(s, w);
    } else {
      WalkReaches(states, steps, i, j, k - 1, w);
      assert step != OnCv(w, WakeAllEnd);
      assert GateOk(s) by { RunInv(states, steps, k - 1); }
      WalkStep(s, step);
      StepKeepsHistory(s, step);
    }
  }

  lemma {:induction false} HistoryGrows(states: seq<State>, steps: seq<Step>, i: nat, j: nat)
    requires Run(states, steps) && i <= j < |states|
    ensures states[i].signals <= states[j].signals && states[i].quits <= states[j].quits
      && states[i].issued <= states[j].issued
  {
    if i < j {
      HistoryGrows(states, steps, i, j - 1);
      StepKeepsHistory(states[j - 1], steps[j - 1]);
    }
  }

  /** A node that was ever made is still pending or has been dequeued by somebody. */
  lemma PendingOrDequeued(s: State, n: nat)
    requires SleepInv(s) && n < s.issued
    ensures n in Pending(s) || n in s.signals || n in s.quits
  {
    if n in s.nodes { assert NodeOk(s, n); }
  }

  /**
   No wakeup is lost: once a sleeper has let go of its lock, a wake-all that starts later does not
   end before that sleeper has been dequeued, by that walk, an earlier signaler or its own timeout.
  */
  lemma WakeAllMissesNobody(states: seq<State>, steps: seq<Step>, r: nat, i: nat, j: nat, w: Tid, t: Tid)
    requires Run(states, steps) && r <= i && IsWalk(states, steps, i, j, w)
    requires t in states[r].threads && states[r].threads[t].pc.Asleep?
    ensures states[r].threads[t].ticket in states[j + 1].signals || states[r].threads[t].ticket in states[j + 1].quits
  {
    hide DoLock, CanDoLock, HistoryOk, AnswersOk, GateOk, LockInv, GuardInv;
    var n := states[r].threads[t].ticket;
    assert n < states[r].issued by {
      RunInv(states, steps, r);
      assert NodeOk(states[r], n);
    }
    HistoryGrows(states, steps, r, i);
    assert n in states[i].queue || n in states[i].signals || n in states[i].quits by {
      RunInv(states, steps, i);
      PendingOrDequeued(states[i], n);
    }
    HistoryGrows(states, steps, i, j + 1);
    HistoryGrows(states, steps, j, j + 1);
    WalkReaches(states, steps, i, j, j, w);
    assert Enabled(states[j], steps[j]);
  }

  /** The nodes a step reads or writes, other than the one it creates. */
  function Touched(s: State, step: Step): set<nat>
    requires Enabled(s, step)
  {
    var me := s.threads[step.t];
    match step
    case OnLock(_, _) =>
      if (me.pc.WokenExclusive? || me.pc.WokenShared?) && me.pc.who.Sleeper? then {me.ticket} else {}
    case OnCv(_, op) =>
      match op
      case Enqueue(_) => if s.queue == [] then {} else {s.queue[|s.queue| - 1]}
      case Release => {}
      case EventSeen => {me.ticket}
      case Expires(_) => {me.ticket}
      case Dequeue => {me.ticket} + Elements(s.queue)
      case Reacquire => {me.ticket}
      case Wake => if s.queue == [] then {} else {s.queue[0]}
      case WakeAllBegin => {}
      case WakeAllNext => {s.gate.rest[0]}
      case WakeAllEnd => {}
  }

  /** What `n` is in a set of nodes. */
  predicate SameAt(a: map<nat, Node>, b: map<nat, Node>, n: nat) {
    (n in a <==> n in b) && (n in a ==> a[n] == b[n])
  }

  lemma AttemptTouches(s: State, t: Tid, a: Attempt, who: Caller, n: nat)
    requires t in s.threads && (who.Sleeper? ==> n != s.threads[t].ticket)
    ensures SameAt(s.nodes, AfterWriteAttempt(s, t, a, who).nodes, n)
    ensures SameAt(s.nodes, AfterReadAttempt(s, t, a, who).nodes, n)
  {
  }

  lemma LockTouches(s: State, t: Tid, op: LockOp, n: nat)
    requires t in s.threads && CanDoLock(s, t, op) && n !in Touched(s, OnLock(t, op))
    ensures SameAt(s.nodes, DoLock(s, t, op).nodes, n)
  {
    hide AfterWriteAttempt, AfterReadAttempt;
    hide RetryExclusive, EnterExclusive, TryExclusive, ReleaseExclusive, EnterShared, TryShared, ReleaseShared;
    if op.AcquireExclusive? {
      AttemptTouches(s, t, EnterExclusive(s.lock), Program, n);
    } else if op.RetryWrite? {
      AttemptTouches(s, t, RetryExclusive(s.lock), s.threads[t].pc.who, n);
    } else if op.AcquireShared? {
      AttemptTouches(s, t, EnterShared(s.lock), Program, n);
    } else if op.RetryRead? {
      AttemptTouches(s, t, EnterShared(s.lock), s.threads[t].pc.who, n);
    }
  }

  lemma ReacquireTouches(s: State, t: Tid, g: Guard, signaled: bool, n: nat)
    requires t in s.threads && n != s.threads[t].ticket
    ensures SameAt(s.nodes, DoReacquire(s, t, g, signaled).nodes, n)
  {
    hide AfterWriteAttempt, AfterReadAttempt, EnterExclusive, EnterShared;
    AttemptTouches(s, t, EnterExclusive(s.lock), Sleeper(g, signaled), n);
    AttemptTouches(s, t, EnterShared(s.lock), Sleeper(g, signaled), n);
  }

  lemma CvTouches(s: State, t: Tid, op: SleepOp, n: nat)
    requires t in s.threads && CanDoCv(s, t, op) && n !in Touched(s, OnCv(t, op)) && n != s.issued
    ensures SameAt(s.nodes, DoCv(s, t, op).nodes, n)
  {
    hide DoReacquire, ReleaseExclusive, ReleaseShared, Without;
    if op.Reacquire? { ReacquireTouches(s, t, s.threads[t].pc.guard, s.threads[t].pc.signaled, n); }
  }

  /** A step writes no node outside its footprint but the one it creates. */
  lemma WritesOnlyTouched(s: State, step: Step, n: nat)
    requires Enabled(s, step) && n !in Touched(s, step) && n != s.issued
    ensures SameAt(s.nodes, Apply(s, step).nodes, n)
  {
    hide DoLock, DoCv, Touched;
    match step
    case OnLock(t, op) => LockTouches(s, t, op, n);
    case OnCv(t, op) => CvTouches(s, t, op, n);
  }

  /** The same state, but for nodes outside `touched`. */
  predicate SameBut(s: State, r: State, touched: set<nat>) {
    r == s.(nodes := r.nodes) && forall n :: n in touched ==> SameAt(s.nodes, r.nodes, n)
  }

  lemma AttemptReads(s: State, r: State, t: Tid, a: Attempt, who: Caller, touched: set<nat>)
    requires SameBut(s, r, touched) && t in s.threads
    ensures SameBut(AfterWriteAttempt(s, t, a, who), AfterWriteAttempt(r, t, a, who), touched)
    ensures SameBut(AfterReadAttempt(s, t, a, who), AfterReadAttempt(r, t, a, who), touched)
  {
  }

  lemma LockReads(s: State, r: State, t: Tid, op: LockOp, touched: set<nat>)
    requires SameBut(s, r, touched) && t in s.threads && CanDoLock(s, t, op)
    ensures CanDoLock(r, t, op) && SameBut(DoLock(s, t, op), DoLock(r, t, op), touched)
  {
    hide AfterWriteAttempt, AfterReadAttempt;
    hide RetryExclusive, EnterExclusive, TryExclusive, ReleaseExclusive, EnterShared, TryShared, ReleaseShared;
    if op.AcquireExclusive? {
      AttemptReads(s, r, t, EnterExclusive(s.lock), Program, touched);
    } else if op.RetryWrite? {
      AttemptReads(s, r, t, RetryExclusive(s.lock), s.threads[t].pc.who, touched);
    } else if op.AcquireShared? {
      AttemptReads(s, r, t, EnterShared(s.lock), Program, touched);
    } else if op.RetryRead? {
      AttemptReads(s, r, t, EnterShared(s.lock), s.threads[t].pc.who, touched);
    }
  }

  lemma ReacquireReads(s: State, r: State, t: Tid, g: Guard, signaled: bool, touched: set<nat>)
    requires SameBut(s, r, touched) && t in s.threads
    ensures SameBut(DoReacquire(s, t, g, signaled), DoReacquire(r, t, g, signaled), touched)
  {
    hide AfterWriteAttempt, AfterReadAttempt, EnterExclusive, EnterShared;
    AttemptReads(s, r, t, EnterExclusive(s.lock), Sleeper(g, signaled), touched);
    AttemptReads(s, r, t, EnterShared(s.lock), Sleeper(g, signaled), touched);
  }

  lemma ReleaseReads(s: State, r: State, t: Tid, g: Guard, touched: set<nat>)
    requires SameBut(s, r, touched) && t in s.threads
    ensures SameBut(DoRelease(s, t, g), DoRelease(r, t, g), touched)
  {
    hide ReleaseExclusive, ReleaseShared;
  }

  lemma DequeueReads(s: State, r: State, t: Tid, g: Guard, result: WaitResult, touched: set<nat>)
    requires SameBut(s, r, touched) && t in s.threads && s.threads[t].ticket in touched
    ensures SameBut(DoDequeue(s, t, g, result), DoDequeue(r, t, g, result), touched)
  {
    hide Without;
    var n := s.threads[t].ticket;
    assert SameAt(s.nodes, r.nodes, n);
  }

  lemma SignalReads(s: State, r: State, n: nat, touched: set<nat>)
    requires SameBut(s, r, touched) && n in touched
    ensures SameBut(Signal(s, n), Signal(r, n), touched)
  {
    assert SameAt(s.nodes, r.nodes, n);
  }

  lemma CvReads(s: State, r: State, t: Tid, op: SleepOp)
    requires t in s.threads && CanDoCv(s, t, op) && SameBut(s, r, Touched(s, OnCv(t, op)))
    ensures CanDoCv(r, t, op) && SameBut(DoCv(s, t, op), DoCv(r, t, op), Touched(s, OnCv(t, op)))
  {
    hide DoReacquire, DoRelease, DoDequeue, Signal, Without;
    var me, touched := s.threads[t], Touched(s, OnCv(t, op));
    if op.Reacquire? {
      ReacquireReads(s, r, t, me.pc.guard, me.pc.signaled, touched);
    } else if op.Release? {
      ReleaseReads(s, r, t, me.pc.guard, touched);
    } else if op.Dequeue? {
      DequeueReads(s, r, t, me.pc.guard, me.pc.result, touched);
    } else if op.Wake? {
      if s.queue != [] { SignalReads(s, r, s.queue[0], touched); }
    } else if op.WakeAllNext? {
      SignalReads(s, r, s.gate.rest[0], touched);
    } else if op.EventSeen? {
      assert SameAt(s.nodes, r.nodes, me.ticket);
    }
  }

  /** A step reads no node outside its footprint: what it does, there and elsewhere, does not depend on them. */
  lemma ReadsOnlyTouched(s: State, r: State, step: Step)
    requires Enabled(s, step) && SameBut(s, r, Touched(s, step))
    ensures Enabled(r, step) && SameBut(Apply(s, step), Apply(r, step), Touched(s, step))
  {
    hide DoLock, DoCv, SameBut, Touched;
    assert step.t in r.threads by { SameThreads(s, r, Touched(s, step)); }
    match step
    case OnLock(t, op) => LockReads(s, r, t, op, Touched(s, step));
    case OnCv(t, op) => CvReads(s, r, t, op);
  }

  lemma SameThreads(s: State, r: State, touched: set<nat>)
    requires SameBut(s, r, touched)
    ensures r.threads == s.threads
  {
  }

  /** No step of any thread ever touches a waiter node whose frame is gone. */
  lemma NodesTouchedAreLive(states: seq<State>, steps: seq<Step>, k: nat)
    requires Run(states, steps) && k < |steps|
    ensures forall n :: n in Touched(states[k], steps[k]) ==>
      && n in states[k].nodes
      && states[k].nodes[n].owner in states[k].threads
      && StageOf(states[k].threads[states[k].nodes[n].owner].pc) != Out
  {
    RunInv(states, steps, k);
    var s := states[k];
    forall n | n in Touched(s, steps[k]) ensures n in s.nodes {
      if n in s.queue || (s.gate.Walking? && n in s.gate.rest) { assert n in Pending(s); }
    }
    forall n | n in s.nodes ensures StageOf(s.threads[s.nodes[n].owner].pc) != Out { assert NodeOk(s, n); }
  }

  /** The caller's lock that the sleep in progress has to give back. */
  function Owed(pc: Pc): Option<Guard> {
    match pc
    case Enqueued(g) => Some(g)
    case Asleep(g) => Some(g)
    case Roused(g, _) => Some(g)
    case Reacquiring(g, _) => Some(g)
    case ParkedExclusive(w) => if w.Sleeper? then Some(w.guard) else None
    case WokenExclusive(w) => if w.Sleeper? then Some(w.guard) else None
    case ParkedShared(w) => if w.Sleeper? then Some(w.guard) else None
    case WokenShared(w) => if w.Sleeper? then Some(w.guard) else None
    case _ => None
  }

  lemma OwedStep(s: State, step: Step, t: Tid)
    requires GuardInv(s) && Enabled(s, step) && t in s.threads && Owed(s.threads[t].pc).Some?
    ensures t in Apply(s, step).threads
    ensures var me, me', g := s.threads[t], Apply(s, step).threads[t], Owed(s.threads[t].pc).value;
      || (Owed(me'.pc) == Some(g) && me'.ticket == me.ticket)
      || (me'.pc == Ready && HasGuard(Apply(s, step), t, g) && me.ticket in Apply(s, step).answers)
  {
    assert GuardOk(s, t) && GuardOk(s, step.t);
    if t != step.t {
      OthersStay(s, step, t);
    } else if step.OnLock? {
      OwedLockStep(s, t, step.op);
    } else {
      OwedCvStep(s, t, step.cv);
    }
  }

  lemma OwedLockStep(s: State, t: Tid, op: LockOp)
    requires t in s.threads && GuardOk(s, t) && CanDoLock(s, t, op) && Owed(s.threads[t].pc).Some?
    ensures t in DoLock(s, t, op).threads
    ensures var me, me', g := s.threads[t], DoLock(s, t, op).threads[t], Owed(s.threads[t].pc).value;
      || (Owed(me'.pc) == Some(g) && me'.ticket == me.ticket)
      || (me'.pc == Ready && HasGuard(DoLock(s, t, op), t, g) && me.ticket in DoLock(s, t, op).answers)
  {
  }

  lemma OwedCvStep(s: State, t: Tid, op: SleepOp)
    requires t in s.threads && GuardOk(s, t) && CanDoCv(s, t, op) && Owed(s.threads[t].pc).Some?
    ensures t in DoCv(s, t, op).threads
    ensures var me, me', g := s.threads[t], DoCv(s, t, op).threads[t], Owed(s.threads[t].pc).value;
      || (Owed(me'.pc) == Some(g) && me'.ticket == me.ticket)
      || (me'.pc == Ready && HasGuard(DoCv(s, t, op), t, g) && me.ticket in DoCv(s, t, op).answers)
  {
    if op == Reacquire {
      match s.threads[t].pc.guard {
        case ByExclusive =>
        case ByShared =>
        case BySection =>
      }
    }
  }

  /**
   A sleep gives back what it took: when a thread that went to sleep holding `g` next becomes ready,
   that very step hands it `g` again, in the same mode, and records the answer of that same sleep.
  */
  lemma {:induction false} SleepReturnsItsLock(states: seq<State>, steps: seq<Step>, i: nat, j: nat, t: Tid, g: Guard)
    requires Run(states, steps) && i < j < |states| && t in states[i].threads
      && Owed(states[i].threads[t].pc) == Some(g)
    requires forall k :: i < k < j && t in states[k].threads ==> states[k].threads[t].pc != Ready
    ensures t in states[j].threads
    ensures if states[j].threads[t].pc == Ready
            then HasGuard(states[j], t, g) && states[i].threads[t].ticket in states[j].answers
            else Owed(states[j].threads[t].pc) == Some(g) && states[j].threads[t].ticket == states[i].threads[t].ticket
  {
    hide DoLock, DoCv, CanDoLock, CanDoCv;
    RunInv(states, steps, j - 1);
    if i < j - 1 {
      SleepReturnsItsLock(states, steps, i, j - 1, t, g);
    }
    OwedStep(states[j - 1], steps[j - 1], t);
  }
}
