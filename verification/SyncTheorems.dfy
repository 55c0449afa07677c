/** What every run of the lock and condition variable guarantees. */
module SyncTheorems {
  import opened Sequences
  import opened SrwLock
  import opened SyncSystem
  import opened SyncLockInvariant
  import opened SyncSleepInvariant

  ghost predicate Inv(s: State) {
    LockInv(s) && GuardInv(s) && SleepInv(s)
  }

  lemma InitialInv(s: State)
    requires Initial(s)
    ensures Inv(s)
  {
    assert Holders(s.threads, Shared) == {} && Holders(s.threads, Exclusive) == {} && Writers(s.threads) == {};
  }

  lemma StepInv(s: State, step: Step)
    requires Inv(s) && Enabled(s, step)
    ensures Inv(Apply(s, step))
  {
    LockStep(s, step);
    GuardStep(s, step);
    SleepStep(s, step);
  }

  lemma {:induction false} RunInv(states: seq<State>, steps: seq<Step>, k: nat)
    requires Run(states, steps) && k < |states|
    ensures Inv(states[k])
  {
    if k == 0 {
      InitialInv(states[0]);
    } else {
      RunInv(states, steps, k - 1);
      StepInv(states[k - 1], steps[k - 1]);
    }
  }

  // ----- the lock -----

  lemma SingletonHolder(a: set<Tid>, t: Tid, u: Tid)
    requires |a| == 1 && t in a && u in a
    ensures t == u
  {
    assert |a - {t}| == 0;
    assert u !in a - {t};
  }

  /** Mutual exclusion, with every counter exact, at every moment of every run. */
  lemma MutualExclusion(states: seq<State>, steps: seq<Step>, k: nat)
    requires Run(states, steps) && k < |states|
    ensures var s := states[k];
      && (forall t, u :: t in s.threads && u in s.threads && t != u && s.threads[t].hold == Exclusive
            ==> s.threads[u].hold == Nothing)
      && (s.lock.writerActive == 1 <==> exists t :: t in Holders(s.threads, Exclusive))
      && (s.lock.writerActive == 1 || s.lock.writerActive == 0)
      && s.lock.readers == |Holders(s.threads, Shared)|
      && s.lock.writersWaiting == |Writers(s.threads)|
  {
    RunInv(states, steps, k);
    var s := states[k];
    forall t, u | t in s.threads && u in s.threads && t != u && s.threads[t].hold == Exclusive
      ensures s.threads[u].hold == Nothing
    {
      assert t in Holders(s.threads, Exclusive);
      Emptiness(s);
      if s.threads[u].hold == Exclusive {
        SingletonHolder(Holders(s.threads, Exclusive), t, u);
      }
    }
    if s.lock.writerActive == 1 {
      assert Holders(s.threads, Exclusive) != {};
    }
  }

  predicate CanRun(s: State, steps: seq<Step>)
    decreases |steps|
  {
    steps == [] || (Enabled(s, steps[0]) && CanRun(Apply(s, steps[0]), steps[1..]))
  }

  function RunFrom(s: State, steps: seq<Step>): State
    requires CanRun(s, steps)
    decreases |steps|
  {
    if steps == [] then s else RunFrom(Apply(s, steps[0]), steps[1..])
  }

  /** `t` needs nobody's help to come out of its acquire holding the lock. */
  ghost predicate CanFinish(s: State, t: Tid) {
    exists steps: seq<Step> ::
      && (forall i :: 0 <= i < |steps| ==> steps[i].t == t)
      && CanRun(s, steps)
      && t in RunFrom(s, steps).threads && RunFrom(s, steps).threads[t].hold != Nothing
  }

  lemma Prepend(s: State, step: Step, rest: seq<Step>)
    requires Enabled(s, step) && CanRun(Apply(s, step), rest)
    ensures CanRun(s, [step] + rest) && RunFrom(s, [step] + rest) == RunFrom(Apply(s, step), rest)
  {
    assert ([step] + rest)[1..] == rest;
  }

  /** One or two steps of `t` alone end with `t` inside. */
  lemma FinishBy(s: State, t: Tid, steps: seq<Step>)
    requires forall i :: 0 <= i < |steps| ==> steps[i].t == t
    requires CanRun(s, steps) && t in RunFrom(s, steps).threads && RunFrom(s, steps).threads[t].hold != Nothing
    ensures CanFinish(s, t)
  {
  }

  lemma WriterFinishes(s: State, t: Tid)
    requires LockInv(s) && s.lock.canWrite && t in Writers(s.threads)
    ensures CanFinish(s, t)
  {
    var seen, retry := OnLock(t, CanWriteSeen), OnLock(t, RetryWrite);
    if s.threads[t].pc.WokenExclusive? {
      Prepend(s, retry, []);
      FinishBy(s, t, [retry] + []);
    } else {
      Prepend(Apply(s, seen), retry, []);
      Prepend(s, seen, [retry] + []);
      FinishBy(s, t, [seen] + ([retry] + []));
    }
  }

  lemma ReaderFinishes(s: State, t: Tid)
    requires LockInv(s) && s.lock.canRead && t in s.threads && WaitingToRead(s.threads[t])
    ensures CanFinish(s, t)
  {
    var seen, retry := OnLock(t, CanReadSeen), OnLock(t, RetryRead);
    if s.threads[t].pc.WokenShared? {
      Prepend(s, retry, []);
      FinishBy(s, t, [retry] + []);
    } else {
      Prepend(Apply(s, seen), retry, []);
      Prepend(s, seen, [retry] + []);
      FinishBy(s, t, [seen] + ([retry] + []));
    }
  }

  /**
   No wakeup of the lock is ever lost. The events tell the truth about the threads, so with nobody
   inside, every waiting writer can finish on its own, and with no writer about, every waiting reader can.
  */
  lemma NobodyIsStranded(states: seq<State>, steps: seq<Step>, k: nat)
    requires Run(states, steps) && k < |states|
    ensures var s := states[k];
      && (s.lock.canWrite <==> forall t :: t in s.threads ==> s.threads[t].hold == Nothing)
      && (s.lock.canRead <==> forall t :: t in s.threads ==>
        s.threads[t].hold != Exclusive && !WaitingToWrite(s.threads[t]))
      && (s.lock.canWrite ==> forall t :: t in Writers(s.threads) ==> CanFinish(s, t))
      && (s.lock.canRead ==> forall t :: t in s.threads && WaitingToRead(s.threads[t]) ==> CanFinish(s, t))
  {
    RunInv(states, steps, k);
    var s := states[k];
    Emptiness(s);
    if s.lock.canWrite {
      forall t | t in Writers(s.threads) ensures CanFinish(s, t) { WriterFinishes(s, t); }
    }
    if s.lock.canRead {
      forall t | t in s.threads && WaitingToRead(s.threads[t]) ensures CanFinish(s, t) { ReaderFinishes(s, t); }
    }
  }

  /** The counters are zero exactly when nobody is there to be counted. */
  lemma Emptiness(s: State)
    requires LockInv(s)
    ensures s.lock.readers == 0 <==> forall t :: t in s.threads ==> s.threads[t].hold != Shared
    ensures s.lock.writerActive == 0 <==> forall t :: t in s.threads ==> s.threads[t].hold != Exclusive
    ensures s.lock.writersWaiting == 0 <==> forall t :: t in s.threads ==> !WaitingToWrite(s.threads[t])
  {
    forall t | t in s.threads && s.threads[t].hold == Shared ensures s.lock.readers != 0 {
      assert t in Holders(s.threads, Shared);
    }
    forall t | t in s.threads && s.threads[t].hold == Exclusive ensures s.lock.writerActive != 0 {
      assert t in Holders(s.threads, Exclusive);
    }
    forall t | t in s.threads && WaitingToWrite(s.threads[t]) ensures s.lock.writersWaiting != 0 {
      assert t in Writers(s.threads);
    }
    if s.lock.readers != 0 { assert Holders(s.threads, Shared) != {}; }
    if s.lock.writerActive != 0 { assert Holders(s.threads, Exclusive) != {}; }
    if s.lock.writersWaiting != 0 { assert Writers(s.threads) != {}; }
  }

  /** With no holder left and somebody waiting for the lock, somebody can go on. */
  lemma Progress(states: seq<State>, steps: seq<Step>, k: nat)
    requires Run(states, steps) && k < |states|
    requires forall t :: t in states[k].threads ==> states[k].threads[t].hold == Nothing
    requires exists t ::
      t in states[k].threads && (WaitingToWrite(states[k].threads[t]) || WaitingToRead(states[k].threads[t]))
    ensures exists t ::
      && t in states[k].threads && (WaitingToWrite(states[k].threads[t]) || WaitingToRead(states[k].threads[t]))
      && CanFinish(states[k], t)
  {
    var s := states[k];
    NobodyIsStranded(states, steps, k);
    var t :| t in s.threads && (WaitingToWrite(s.threads[t]) || WaitingToRead(s.threads[t]));
    if w :| w in s.threads && WaitingToWrite(s.threads[w]) {
      assert w in Writers(s.threads);
    }
  }

  lemma NoReaderPassesWriter(s: State, step: Step)
    requires GuardInv(s) && Enabled(s, step) && s.lock.writersWaiting > 0
    ensures Holders(Apply(s, step).threads, Shared) <= Holders(s.threads, Shared)
  {
    hide DoLock, DoCv;
    var after := Apply(s, step);
    forall u | u in Holders(after.threads, Shared) ensures u in Holders(s.threads, Shared) {
      assert GuardOk(s, step.t);
      if u != step.t {
        OthersStay(s, step, u);
      } else {
        match step
        case OnLock(t, op) => NotAdmittedByLock(s, t, op);
        case OnCv(t, op) => NotAdmittedByCv(s, t, op);
      }
    }
  }

  lemma NotAdmittedByLock(s: State, t: Tid, op: LockOp)
    requires t in s.threads && CanDoLock(s, t, op) && s.lock.writersWaiting > 0
    ensures t in DoLock(s, t, op).threads
      && (DoLock(s, t, op).threads[t].hold == Shared ==> s.threads[t].hold == Shared)
  {
    hide RetryExclusive, EnterExclusive, TryExclusive, ReleaseExclusive, ReleaseShared;
  }

  lemma NotAdmittedAgain(s: State, t: Tid, g: Guard, signaled: bool)
    requires t in s.threads && s.lock.writersWaiting > 0
    ensures var s' := DoReacquire(s, t, g, signaled);
      t in s'.threads && (s'.threads[t].hold == Shared ==> s.threads[t].hold == Shared)
  {
    hide EnterExclusive;
  }

  lemma NotAdmittedByCv(s: State, t: Tid, op: SleepOp)
    requires t in s.threads && CanDoCv(s, t, op) && s.lock.writersWaiting > 0
    ensures t in DoCv(s, t, op).threads && (DoCv(s, t, op).threads[t].hold == Shared ==> s.threads[t].hold == Shared)
  {
    hide DoReacquire, ReleaseExclusive, ReleaseShared, Without;
    if op.Reacquire? { NotAdmittedAgain(s, t, s.threads[t].pc.guard, s.threads[t].pc.signaled); }
  }

  /** While some writer waits, the set of readers inside only shrinks. */
  lemma {:induction false} WriterPreference(states: seq<State>, steps: seq<Step>, i: nat, j: nat)
    requires Run(states, steps) && i <= j < |states|
    requires forall k :: i <= k < j ==> states[k].lock.writersWaiting > 0
    ensures Holders(states[j].threads, Shared) <= Holders(states[i].threads, Shared)
  {
    if i < j {
      WriterPreference(states, steps, i, j - 1);
      RunInv(states, steps, j - 1);
      NoReaderPassesWriter(states[j - 1], steps[j - 1]);
    }
  }
}
