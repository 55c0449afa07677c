/**
 Exactly which runs resume a walk at a freed entry: those in which some step takes out the successor a thread has saved,
 and that thread then resumes.
*/
module VehStray {
  import opened Sequences
  import opened VehProtocol
  import opened VehInvariant
  import opened VehTheorems
  import opened VehSuccessor

  ghost predicate NoResume(steps: seq<Step>, i: nat, j: nat, u: Tid) {
    forall m :: i < m < j && m < |steps| ==> steps[m] != Resume(u)
  }

  /** Step `i` disturbs thread `u`, whose next resume is step `j`. */
  ghost predicate Fault(states: seq<State>, steps: seq<Step>, i: nat, j: nat, u: Tid) {
    i < j < |steps| < |states| && DisturbsThread(states[i], steps[i], u) && steps[j] == Resume(u)
      && NoResume(steps, i, j, u)
  }

  // ----- what single steps do to the freed entries -----

  lemma FreedGrows(s: State, step: Step)
    requires Enabled(s, step)
    ensures s.freed <= Apply(s, step).freed
    ensures Inv(s) && TakesOut(s, step).Some? ==> TakesOut(s, step).value in Apply(s, step).freed
  {
    hide Without, Find, NextLive, SuccessorOf, Inv;
  }

  /** A thread about to resume can do nothing else. */
  lemma OnlyResumes(s: State, step: Step, u: Tid, x: Option<Id>)
    requires Enabled(s, step) && u in s.stacks && Top(s.stacks[u]) == Some(Resuming(x)) && step.t == u
    ensures step == Resume(u)
  {
  }

  // ----- a disturbed thread strays when it resumes -----

  lemma {:induction false} StaysDisturbed(states: seq<State>, steps: seq<Step>, i: nat, m: nat, u: Tid)
    requires Run(states, steps) && i < m < |states| && DisturbsThread(states[i], steps[i], u)
      && NoResume(steps, i, m, u)
    ensures u in states[m].stacks && states[m].stacks[u] == states[i].stacks[u]
    ensures TakesOut(states[i], steps[i]).value in states[m].freed
  {
    hide Apply, TakesOut;
    var s, step := states[m - 1], steps[m - 1];
    assert Enabled(s, step) && states[m] == Apply(s, step);
    RunInv(states, steps, m - 1);
    OthersStay(s, step);
    FreedGrows(s, step);
    if i < m - 1 {
      StaysDisturbed(states, steps, i, m - 1, u);
      if step.t == u { OnlyResumes(s, step, u, TakesOut(states[i], steps[i])); }
    }
  }

  lemma FaultStrays(states: seq<State>, steps: seq<Step>, i: nat, j: nat, u: Tid)
    requires Run(states, steps) && Fault(states, steps, i, j, u)
    ensures states[j + 1].strayed
  {
    hide Apply, TakesOut;
    StaysDisturbed(states, steps, i, j, u);
    FreedExactlyOnce(states, steps, j);
    assert Enabled(states[j], steps[j]) && states[j + 1] == Apply(states[j], steps[j]);
    FlagAfter(states[j], steps[j]);
  }

  lemma {:induction false} StaysStrayed(states: seq<State>, steps: seq<Step>, j: nat, k: nat)
    requires Run(states, steps) && j <= k < |states| && states[j].strayed
    ensures states[k].strayed
  {
    hide Apply;
    if j < k {
      StaysStrayed(states, steps, j, k - 1);
      assert Enabled(states[k - 1], steps[k - 1]) && states[k] == Apply(states[k - 1], steps[k - 1]);
      FlagAfter(states[k - 1], steps[k - 1]);
    }
  }

  // ----- a thread that strays was disturbed -----

  /** Some step before `m` disturbed `u`, which has not resumed since. */
  ghost predicate DisturbedSince(states: seq<State>, steps: seq<Step>, m: nat, u: Tid)
    requires m <= |steps| && m <= |states|
  {
    exists i: nat :: i < m && DisturbsThread(states[i], steps[i], u) && NoResume(steps, i, m, u)
  }

  lemma DisturbedNow(states: seq<State>, steps: seq<Step>, m: nat, u: Tid)
    requires 0 < m <= |steps| && m <= |states| && DisturbsThread(states[m - 1], steps[m - 1], u)
    ensures DisturbedSince(states, steps, m, u)
  {
    assert NoResume(steps, m - 1, m, u);
  }

  lemma StillDisturbed(states: seq<State>, steps: seq<Step>, m: nat, u: Tid)
    requires 0 < m <= |steps| && m <= |states| && DisturbedSince(states, steps, m - 1, u) && steps[m - 1].t != u
    ensures DisturbedSince(states, steps, m, u)
  {
    var i: nat :| i < m - 1 && DisturbsThread(states[i], steps[i], u) && NoResume(steps, i, m - 1, u);
    assert NoResume(steps, i, m, u);
  }

  /** A saved successor is still linked, or some step took it out since it was saved. */
  lemma {:induction false} SavedOrDisturbed(states: seq<State>, steps: seq<Step>, m: nat, u: Tid, x: Id)
    requires Run(states, steps) && m < |states| && u in states[m].stacks
      && Top(states[m].stacks[u]) == Some(Resuming(Some(x)))
    ensures x in states[m].list || DisturbedSince(states, steps, m, u)
  {
    hide Apply, TakesOut, Inv, DisturbedSince;
    if m > 0 {
      var s, step := states[m - 1], steps[m - 1];
      assert Enabled(s, step) && states[m] == Apply(s, step);
      RunInv(states, steps, m - 1);
      OthersStay(s, step);
      OwnFrame(s, step);
      if step.t != u {
        SavedOrDisturbed(states, steps, m - 1, u, x);
        if x in s.list {
          ListAfter(s, step, x);
          if x !in states[m].list { DisturbedNow(states, steps, m, u); }
        } else {
          StillDisturbed(states, steps, m, u);
        }
      }
    }
  }

  lemma {:induction false} StrayedWasDisturbed(states: seq<State>, steps: seq<Step>, k: nat)
    requires Run(states, steps) && k < |states| && states[k].strayed
    ensures exists i: nat, j: nat, u: Tid :: j < k && Fault(states, steps, i, j, u)
  {
    hide Apply, TakesOut, DisturbsThread;
    if k > 0 {
      var s, step := states[k - 1], steps[k - 1];
      assert Enabled(s, step) && states[k] == Apply(s, step);
      if s.strayed {
        StrayedWasDisturbed(states, steps, k - 1);
      } else {
        FlagAfter(s, step);
        var x := s.stacks[step.t][|s.stacks[step.t]| - 1].successor.value;
        SavedOrDisturbed(states, steps, k - 1, step.t, x);
        var i: nat :| i < k - 1 && DisturbsThread(states[i], steps[i], step.t) && NoResume(steps, i, k - 1, step.t);
        assert Fault(states, steps, i, k - 1, step.t);
      }
    }
  }

  /** The exact condition: a run has strayed if and only if a disturbed thread has since resumed. */
  lemma StrayedExactlyWhenDisturbed(states: seq<State>, steps: seq<Step>, k: nat)
    requires Run(states, steps) && k < |states|
    ensures states[k].strayed <==> exists i: nat, j: nat, u: Tid :: j < k && Fault(states, steps, i, j, u)
  {
    hide Run, Fault;
    if states[k].strayed {
      StrayedWasDisturbed(states, steps, k);
    }
    if i: nat, j: nat, u: Tid :| j < k && Fault(states, steps, i, j, u) {
      FaultStrays(states, steps, i, j, u);
      StaysStrayed(states, steps, j + 1, k);
    }
  }

  // ----- what callers of Remove can see to -----

  /** The step unregisters an entry whose handler is running. */
  predicate RemovesRunning(s: State, step: Step) {
    step.Remove? && Sites(s.stacks, step.handle) != {}
  }

  /** No removed entry waits for a call to end, and no walk waits for its lock. */
  predicate Quiet(s: State) {
    && !s.strayed
    && (forall id :: id in s.entries ==> !s.entries[id].deleted)
    && forall t, d :: t in s.stacks && 0 <= d < |s.stacks[t]| ==> s.stacks[t][d].Calling?
  }

  /** A registered entry outlives its calls. */
  lemma CalledIsShared(s: State, t: Tid)
    requires Inv(s) && Quiet(s) && t in s.stacks && s.stacks[t] != []
    ensures
      var id := s.stacks[t][|s.stacks[t]| - 1].id;
      id in s.entries && At(s, id).references > 1
  {
    hide HistoryOk;
    var d := |s.stacks[t]| - 1;
    var id := s.stacks[t][d].id;
    assert (t, d) in Sites(s.stacks, id);
  }

  lemma ReturnStaysQuiet(s: State, t: Tid, c: bool)
    requires Inv(s) && Quiet(s) && Enabled(s, HandlerReturns(t, c))
    ensures Quiet(Apply(s, HandlerReturns(t, c)))
  {
    hide Apply, Inv, Walk, Find;
    CalledIsShared(s, t);
    var id := s.stacks[t][|s.stacks[t]| - 1].id;
    assert id in s.list by { CallEnds(s, t, id); }
    ReturnShape(s, t, c);
    var s1 := Ended(s, t, id);
    assert Quiet(s1);
    if !c { WalkStaysQuiet(s1, t, Find(s.list, id, 0) + 1); }
  }

  lemma WalkStaysQuiet(s: State, t: Tid, from: nat)
    requires Quiet(s) && t in s.stacks && from <= |s.list|
    ensures Quiet(Walk(s, t, s.stacks[t], from))
  {
    var k := NextLive(s.list, s.entries, from);
  }

  /** Nobody else's call is in progress, so an idle entry goes at once. */
  lemma IdleRemovalStaysQuiet(s: State, t: Tid, handle: Id)
    requires Inv(s) && Quiet(s) && Sites(s.stacks, handle) == {}
    ensures Quiet(DoRemove(s, handle))
  {
    hide HistoryOk, FramesOk, Without;
    if handle in s.list && !At(s, handle).deleted {
      assert s.entries[handle].references == 1;
    }
  }

  lemma StaysQuiet(s: State, step: Step)
    requires Inv(s) && Quiet(s) && Enabled(s, step) && !RemovesRunning(s, step)
    ensures Quiet(Apply(s, step))
  {
    hide Inv, Walk, DoRemove, Quiet;
    match step
    case Add(t, first) => AddStaysQuiet(s, t, first);
    case Remove(t, handle) => IdleRemovalStaysQuiet(s, t, handle);
    case Raise(t) => WalkStaysQuiet(s, t, 0);
    case HandlerReturns(t, c) => ReturnStaysQuiet(s, t, c);
    case Resume(t) => NothingResumes(s, t);
  }

  lemma AddStaysQuiet(s: State, t: Tid, first: bool)
    requires Quiet(s) && Enabled(s, Add(t, first))
    ensures Quiet(Apply(s, Add(t, first)))
  {
  }

  lemma NothingResumes(s: State, t: Tid)
    requires Quiet(s)
    ensures !Enabled(s, Resume(t))
  {
  }

  lemma {:induction false} StaysQuietAlways(states: seq<State>, steps: seq<Step>, k: nat)
    requires Run(states, steps) && k < |states|
    requires forall i :: 0 <= i < k ==> !RemovesRunning(states[i], steps[i])
    ensures Quiet(states[k])
  {
    hide Apply, Inv, RemovesRunning;
    if k > 0 {
      StaysQuietAlways(states, steps, k - 1);
      RunInv(states, steps, k - 1);
      assert Enabled(states[k - 1], steps[k - 1]) && states[k] == Apply(states[k - 1], steps[k - 1]);
      StaysQuiet(states[k - 1], steps[k - 1]);
    }
  }

  /**
   What callers can see to: as long as nobody unregisters an entry while its handler is running, no walk ever resumes
   at a freed entry, and no removed entry stays behind in the list.
  */
  lemma IdleRemovalsNeverStray(states: seq<State>, steps: seq<Step>, k: nat)
    requires Run(states, steps) && k < |states|
    requires forall i :: 0 <= i < k ==> !RemovesRunning(states[i], steps[i])
    ensures !states[k].strayed
    ensures forall id :: id in states[k].removed ==> id in states[k].freed
  {
    StaysQuietAlways(states, steps, k);
    RunInv(states, steps, k);
  }
}
