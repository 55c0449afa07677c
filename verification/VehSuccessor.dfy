/**
 The successor a dispatcher saves before it drops the lock to free an entry. The walk may go on
 from it only if it is still linked when the lock is taken again, and this is when that is so.
*/
module VehSuccessor {
  import opened Sequences
  import opened VehProtocol
  import opened VehInvariant

  /** If `u` is about to resume a walk, the entry it would resume at is still linked. */
  predicate SavedLinked(s: State, u: Tid)
    requires u in s.stacks
  {
    match Top(s.stacks[u])
    case Some(Resuming(Some(x))) => x in s.list
    case _ => true
  }

  predicate SuccessorsLinked(s: State) {
    forall u :: u in s.stacks ==> SavedLinked(s, u)
  }

  /** The entry a step takes out of the list: one whose only share that step gives up. */
  function TakesOut(s: State, step: Step): Option<Id>
    requires Enabled(s, step)
  {
    match step
    case Remove(_, handle) =>
      if handle in s.list && !At(s, handle).deleted && At(s, handle).references == 1 then Some(handle) else None
    case HandlerReturns(t, _) =>
      var id := s.stacks[t][|s.stacks[t]| - 1].id;
      if At(s, id).references == 1 then Some(id) else None
    case _ => None
  }

  /** Thread `u` is between its unlock and its lock, with the very entry saved that another's step takes out. */
  predicate DisturbsThread(s: State, step: Step, u: Tid) {
    && Enabled(s, step) && TakesOut(s, step).Some?
    && u in s.stacks && u != step.t && Top(s.stacks[u]) == Some(Resuming(TakesOut(s, step)))
  }

  predicate Disturbs(s: State, step: Step) {
    exists u :: u in s.stacks && DisturbsThread(s, step, u)
  }

  lemma FlagAfter(s: State, step: Step)
    requires Enabled(s, step)
    ensures Apply(s, step).strayed <==>
      s.strayed || (step.Resume? &&
        var saved := s.stacks[step.t][|s.stacks[step.t]| - 1].successor; saved.Some? && saved.value !in s.list)
  {
    hide Without, Find, NextLive, SuccessorOf;
  }

  lemma ReturnList(s: State, t: Tid, c: bool)
    requires Enabled(s, HandlerReturns(t, c))
    ensures var id := s.stacks[t][|s.stacks[t]| - 1].id;
      Apply(s, HandlerReturns(t, c)).list == if At(s, id).references == 1 then Without(s.list, id) else s.list
  {
    hide Without, Find, NextLive, SuccessorOf;
  }

  lemma ListAfter(s: State, step: Step, x: Id)
    requires Inv(s) && Enabled(s, step) && x in s.list
    ensures x in Apply(s, step).list <==> TakesOut(s, step) != Some(x)
  {
    hide Without, Find, NextLive, SuccessorOf;
    if step.HandlerReturns? {
      hide Apply;
      ReturnList(s, step.t, step.continueExecution);
      WithoutDistinct(s.list, s.stacks[step.t][|s.stacks[step.t]| - 1].id);
    } else if step.Remove? {
      WithoutDistinct(s.list, step.handle);
    }
  }

  /** Only the step's own thread moves. */
  lemma OthersStay(s: State, step: Step)
    requires Enabled(s, step)
    ensures Apply(s, step).stacks.Keys == s.stacks.Keys
    ensures forall u :: u in s.stacks && u != step.t ==> Apply(s, step).stacks[u] == s.stacks[u]
  {
    hide Without, Find, NextLive, SuccessorOf;
  }

  /** A thread that has just come to wait for its lock has a linked successor saved. */
  lemma OwnFrame(s: State, step: Step)
    requires Inv(s) && Enabled(s, step)
    ensures step.t in Apply(s, step).stacks && SavedLinked(Apply(s, step), step.t)
  {
    hide Without, NextLive, SuccessorOf, Find, Inv;
    var t := step.t;
    if step.HandlerReturns? {
      OwnReturn(s, t, step.continueExecution);
    } else if step.Resume? {
      OwnResume(s, t);
    }
  }

  lemma OwnResume(s: State, t: Tid)
    requires Inv(s) && Enabled(s, Resume(t))
    ensures t in Apply(s, Resume(t)).stacks && SavedLinked(Apply(s, Resume(t)), t)
  {
    hide Apply, Walk, Find;
    PopKeeps(s, t);
    ResumeShape(s, t);
    var s1, successor := Popped(s, t), s.stacks[t][|s.stacks[t]| - 1].successor;
    if successor.Some? && successor.value in s.list {
      WalkTop(s1, t, s1.stacks[t], Find(s.list, successor.value, 0));
    }
  }

  lemma OwnReturn(s: State, t: Tid, c: bool)
    requires Inv(s) && Enabled(s, HandlerReturns(t, c))
    ensures t in Apply(s, HandlerReturns(t, c)).stacks && SavedLinked(Apply(s, HandlerReturns(t, c)), t)
  {
    hide Apply, Walk, Without, NextLive, SuccessorOf, Find;
    var stack := s.stacks[t];
    var below, id := stack[..|stack| - 1], stack[|stack| - 1].id;
    assert id in s.list && RunsCode(below);
    ReturnShape(s, t, c);
    var s1, k := Ended(s, t, id), Find(s.list, id, 0);
    assert s1.stacks[t] == below;
    if At(s, id).references == 1 {
      SuccessorSurvives(s.list, id);
    } else if !c {
      WalkTop(s1, t, below, k + 1);
    }
  }

  lemma SuccessorSurvives(list: seq<Id>, id: Id)
    requires Distinct(list) && id in list
    ensures SuccessorOf(list, id).Some? ==> SuccessorOf(list, id).value in Without(list, id)
  {
    WithoutDistinct(list, id);
    var k := Find(list, id, 0);
    if k + 1 < |list| { assert list[k + 1] != id; }
  }

  lemma WalkTop(s: State, t: Tid, below: seq<Frame>, from: nat)
    requires from <= |s.list| && RunsCode(below)
    ensures t in Walk(s, t, below, from).stacks && RunsCode(Walk(s, t, below, from).stacks[t])
  {
  }

  /** Saved successors stay linked exactly as long as no step disturbs one. */
  lemma SuccessorStep(s: State, step: Step)
    requires Inv(s) && SuccessorsLinked(s) && Enabled(s, step)
    ensures SuccessorsLinked(Apply(s, step)) <==> !Disturbs(s, step)
    ensures Apply(s, step).strayed == s.strayed
  {
    hide Apply, TakesOut, Inv, DisturbsThread, SavedLinked;
    var s' := Apply(s, step);
    OthersStay(s, step);
    OwnFrame(s, step);
    forall u | u in s.stacks && u != step.t ensures SavedLinked(s', u) <==> !DisturbsThread(s, step, u) {
      OthersFrame(s, step, u);
    }
    assert !DisturbsThread(s, step, step.t) by { NotItself(s, step); }
    NoNewStray(s, step);
  }

  lemma NotItself(s: State, step: Step)
    ensures !DisturbsThread(s, step, step.t)
  {
  }

  /** What another thread has saved stays linked unless that very entry goes. */
  lemma OthersFrame(s: State, step: Step, u: Tid)
    requires Inv(s) && Enabled(s, step) && u in s.stacks && u != step.t && SavedLinked(s, u)
    ensures u in Apply(s, step).stacks && (SavedLinked(Apply(s, step), u) <==> !DisturbsThread(s, step, u))
  {
    hide Apply, Inv, TakesOut;
    OthersStay(s, step);
    var top := Top(s.stacks[u]);
    if top.Some? && top.value.Resuming? && top.value.successor.Some? {
      ListAfter(s, step, top.value.successor.value);
    } else if TakesOut(s, step).Some? {
      assert top != Some(Resuming(TakesOut(s, step)));
    }
  }

  lemma NoNewStray(s: State, step: Step)
    requires SuccessorsLinked(s) && Enabled(s, step)
    ensures Apply(s, step).strayed == s.strayed
  {
    hide Apply;
    FlagAfter(s, step);
    assert step.Resume? ==> SavedLinked(s, step.t);
  }

  /** A run nobody disturbs never resumes a walk at an entry that has been freed. */
  lemma {:induction false} UndisturbedNeverStrays(states: seq<State>, steps: seq<Step>, k: nat)
    requires Run(states, steps) && k < |states|
    requires forall i :: 0 <= i < k ==> !(Enabled(states[i], steps[i]) && Disturbs(states[i], steps[i]))
    ensures SuccessorsLinked(states[k]) && !states[k].strayed
  {
    hide Apply, Disturbs, Inv;
    if k > 0 {
      UndisturbedNeverStrays(states, steps, k - 1);
      RunInv(states, steps, k - 1);
      SuccessorStep(states[k - 1], steps[k - 1]);
    }
  }

  /** The first disturbance leaves some thread one step away from resuming at a freed entry. */
  lemma DisturbedCanStray(states: seq<State>, steps: seq<Step>, k: nat)
    requires Run(states, steps) && k < |steps| && Disturbs(states[k], steps[k])
    requires forall i :: 0 <= i < k ==> !(Enabled(states[i], steps[i]) && Disturbs(states[i], steps[i]))
    ensures exists u :: Enabled(states[k + 1], Resume(u)) && Apply(states[k + 1], Resume(u)).strayed
  {
    hide Apply, TakesOut;
    var s, step, s' := states[k], steps[k], states[k + 1];
    assert Enabled(s, step) && s' == Apply(s, step);
    UndisturbedNeverStrays(states, steps, k);
    RunInv(states, steps, k);
    OthersStay(s, step);
    var u :| u in s.stacks && DisturbsThread(s, step, u);
    assert SavedLinked(s, u);
    ListAfter(s, step, TakesOut(s, step).value);
    FlagAfter(s', Resume(u));
  }

  /** One thread alone, however deeply its handlers nest, never disturbs its own walks. */
  lemma OneThreadIsSafe(states: seq<State>, steps: seq<Step>, k: nat)
    requires Run(states, steps) && k < |states|
    requires forall t, u :: t in states[0].stacks && u in states[0].stacks ==> t == u
    ensures !states[k].strayed
  {
    hide Apply, TakesOut;
    forall i | 0 <= i < |steps| ensures !Disturbs(states[i], steps[i]) {
      SameThreads(states, steps, i);
    }
    UndisturbedNeverStrays(states, steps, k);
  }

  lemma {:induction false} SameThreads(states: seq<State>, steps: seq<Step>, k: nat)
    requires Run(states, steps) && k < |states|
    ensures states[k].stacks.Keys == states[0].stacks.Keys
  {
    hide Apply;
    if k > 0 {
      SameThreads(states, steps, k - 1);
      OthersStay(states[k - 1], steps[k - 1]);
    }
  }

  const TwoStacks: map<Tid, seq<Frame>> := map[0 := [], 1 := []]
  const S0 := State([], map[], TwoStacks, [], [], [], false)
  const S1 := State([0], map[0 := Registration(1, false)], TwoStacks, [false], [], [], false)
  const S2 := State([0, 1], map[0 := Registration(1, false), 1 := Registration(1, false)],
                    TwoStacks, [false, false], [], [], false)
  const S3 := S2.(entries := map[0 := Registration(2, false), 1 := Registration(1, false)],
                  stacks := map[0 := [Calling(0)], 1 := []])
  const S4 := S3.(entries := map[0 := Registration(1, true), 1 := Registration(1, false)], removed := [0])
  const S5 := S4.(list := [1], entries := map[1 := Registration(1, false)], freed := [0],
                  stacks := map[0 := [Resuming(Some(1))], 1 := []])
  const S6 := S5.(list := [], entries := map[], freed := [0, 1], removed := [0, 1])
  const S7 := S6.(strayed := true, stacks := TwoStacks)

  lemma TwoAdds()
    ensures Enabled(S0, Add(0, false)) && Apply(S0, Add(0, false)) == S1
    ensures Enabled(S1, Add(0, false)) && Apply(S1, Add(0, false)) == S2
  {
  }

  lemma RaiseCallsTheFirst()
    ensures Enabled(S2, Raise(0)) && Apply(S2, Raise(0)) == S3
  {
    assert NextLive(S2.list, S2.entries, 0) == 0;
    assert S2.stacks[0] + [Calling(0)] == [Calling(0)];
  }

  lemma RemoveWhileCalled()
    ensures Enabled(S3, Remove(1, 0)) && Apply(S3, Remove(1, 0)) == S4
  {
  }

  lemma ReturnFreesTheFirst()
    ensures Enabled(S4, HandlerReturns(0, false)) && Apply(S4, HandlerReturns(0, false)) == S5
  {
    SmallLists();
    hide Find, Without, SuccessorOf, NextLive, Walk;
    assert S4.stacks[0][..0] == [];
    var below: seq<Frame> := [];
    var s1 := Set(S4, 0, 0, true);
    assert s1.list == S4.list && s1.entries - {0} == S5.entries && s1.freed + [0] == [0];
    assert below + [Resuming(Some(1))] == [Resuming(Some(1))];
    assert S4.stacks[0 := [Resuming(Some(1))]] == S5.stacks;
    assert DoReturn(S4, 0, below, 0, false) == S5;
  }

  lemma SmallLists()
    ensures SuccessorOf(S4.list, 0) == Some(1) && Without(S4.list, 0) == [1]
  {
    assert Find(S4.list, 0, 0) == 0;
  }

  lemma RemoveFreesTheSecond()
    ensures Enabled(S5, Remove(1, 1)) && Apply(S5, Remove(1, 1)) == S6
  {
    assert Find(S5.list, 1, 0) == 0;
  }

  lemma ResumeStrays()
    ensures Enabled(S6, Resume(0)) && Apply(S6, Resume(0)) == S7
  {
    assert S6.stacks[0][..0] == [];
  }

  ghost predicate Reachable(s: State, n: nat) {
    exists states: seq<State>, steps: seq<Step> :: Run(states, steps) && |steps| == n && states[n] == s
  }

  /** Any enabled step carries a run on. */
  lemma Extend(s: State, n: nat, step: Step)
    requires Reachable(s, n) && Enabled(s, step)
    ensures Reachable(Apply(s, step), n + 1)
  {
    var states: seq<State>, steps: seq<Step> :| Run(states, steps) && |steps| == n && states[n] == s;
    assert Run(states + [Apply(s, step)], steps + [step]);
  }

  lemma RemovedWhileCalled()
    ensures Reachable(S4, 4)
  {
    assert Run([S0], []);
    TwoAdds();
    Extend(S0, 0, Add(0, false));
    Extend(S1, 1, Add(0, false));
    RaiseCallsTheFirst();
    Extend(S2, 2, Raise(0));
    RemoveWhileCalled();
    Extend(S3, 3, Remove(1, 0));
  }

  /** Two threads can: one walk saves entry 1, the other thread removes it before the walk resumes. */
  lemma TwoThreadsCanStray()
    ensures Reachable(S7, 7) && S7.strayed
  {
    assert Reachable(S6, 6) by {
      assert Reachable(S5, 5) by {
        RemovedWhileCalled();
        ReturnFreesTheFirst();
        Extend(S4, 4, HandlerReturns(0, false));
      }
      RemoveFreesTheSecond();
      Extend(S5, 5, Remove(1, 1));
    }
    ResumeStrays();
    Extend(S6, 6, Resume(0));
  }
}
