/** Runs of the protocol as one thread makes them: what a dispatch is made of, and the answers its handlers gave. */
module VehFollows {
  import opened Sequences
  import opened VehProtocol
  import opened VehInvariant

  ghost predicate Follows(s: State, steps: seq<Step>, after: State)
    decreases |steps|
  {
    if steps == [] then s == after else Enabled(s, steps[0]) && Follows(Apply(s, steps[0]), steps[1..], after)
  }

  lemma {:induction false} FollowsOn(s: State, steps: seq<Step>, m: State, more: seq<Step>, after: State)
    requires Follows(s, steps, m) && Follows(m, more, after)
    ensures Follows(s, steps + more, after)
    decreases |steps|
  {
    hide Apply;
    if steps == [] {
      assert steps + more == more;
    } else {
      assert (steps + more)[1..] == steps[1..] + more;
      FollowsOn(Apply(s, steps[0]), steps[1..], m, more, after);
    }
  }

  lemma NoStep(s: State, t: Tid, height: nat)
    ensures Follows(s, [], s) && Answered(s, [], t, height, [])
  {
  }

  lemma OneStep(s: State, step: Step)
    requires Enabled(s, step)
    ensures Follows(s, [step], Apply(s, step))
  {
    hide Apply;
    assert [step][1..] == [];
  }

  /** Every run from the start is a run of the protocol. */
  lemma {:induction false} FollowsIsRun(s: State, steps: seq<Step>, after: State) returns (states: seq<State>)
    requires Follows(s, steps, after)
    ensures |states| == |steps| + 1 && states[0] == s && states[|steps|] == after
    ensures forall i {:trigger steps[i]} ::
      0 <= i < |steps| ==> Enabled(states[i], steps[i]) && states[i + 1] == Apply(states[i], steps[i])
    decreases |steps|
  {
    hide Apply;
    if steps == [] {
      states := [s];
    } else {
      var rest := FollowsIsRun(Apply(s, steps[0]), steps[1..], after);
      states := [s] + rest;
      forall i {:trigger steps[i]} | 0 <= i < |steps|
        ensures Enabled(states[i], steps[i]) && states[i + 1] == Apply(states[i], steps[i])
      {
        if i > 0 { assert steps[i] == steps[1..][i - 1]; }
      }
    }
  }

  // ----- the answers of the handlers -----

  /** What the handlers answered that returned while `height` dispatches of `t` were under way. */
  ghost function Returns(s: State, steps: seq<Step>, t: Tid, height: nat): seq<bool>
    decreases |steps|
  {
    if steps == [] || !Enabled(s, steps[0]) then []
    else
      var rest := Returns(Apply(s, steps[0]), steps[1..], t, height);
      if steps[0].HandlerReturns? && steps[0].t == t && |s.stacks[t]| == height then
        [steps[0].continueExecution] + rest
      else rest
  }

  /** At `height` the handlers answered `answers`, and below it none returned. */
  ghost predicate Answered(s: State, steps: seq<Step>, t: Tid, height: nat, answers: seq<bool>) {
    Returns(s, steps, t, height) == answers && forall h: nat | h < height :: Returns(s, steps, t, h) == []
  }

  lemma {:induction false} ReturnsJoin(
    s: State, steps: seq<Step>, m: State, more: seq<Step>, t: Tid, height: nat)
    requires Follows(s, steps, m)
    ensures Returns(s, steps + more, t, height) == Returns(s, steps, t, height) + Returns(m, more, t, height)
    decreases |steps|
  {
    hide Apply;
    if steps == [] {
      assert steps + more == more;
    } else {
      assert (steps + more)[1..] == steps[1..] + more;
      ReturnsJoin(Apply(s, steps[0]), steps[1..], m, more, t, height);
    }
  }

  lemma AnsweredJoin(s: State, steps: seq<Step>, m: State, more: seq<Step>, t: Tid, height: nat,
                     first: seq<bool>, second: seq<bool>)
    requires Follows(s, steps, m) && Answered(s, steps, t, height, first) && Answered(m, more, t, height, second)
    ensures Answered(s, steps + more, t, height, first + second)
  {
    hide Follows, Returns;
    forall h: nat { ReturnsJoin(s, steps, m, more, t, h); }
  }

  lemma AnsweredBelow(s: State, steps: seq<Step>, t: Tid, height: nat, answers: seq<bool>)
    requires Answered(s, steps, t, height, answers) && height > 0
    ensures Answered(s, steps, t, height - 1, [])
  {
  }

  lemma OneAnswer(s: State, step: Step, t: Tid, height: nat)
    requires Enabled(s, step)
    requires step.HandlerReturns? && step.t == t ==> height <= |s.stacks[t]|
    ensures Answered(s, [step], t, height,
      if step.HandlerReturns? && step.t == t && height == |s.stacks[t]| then [step.continueExecution] else [])
  {
    hide Apply;
    var steps := [step];
    assert steps[1..] == [];
    forall h: nat
      ensures Returns(s, steps, t, h) ==
        if step.HandlerReturns? && step.t == t && h == |s.stacks[t]| then [step.continueExecution] else []
    {
      assert Returns(Apply(s, step), steps[1..], t, h) == [];
    }
  }

  // ----- the steps of the protocol that end a call -----

  /** Where the walk of `t` stands: about to look at index `from`, or gone to its next stop. */
  ghost predicate Walking(start: State, steps: seq<Step>, s: State, t: Tid, from: nat) {
    && t in s.stacks && from <= |s.list|
    && exists reached :: Follows(start, steps, reached) && reached == Walk(s, t, s.stacks[t], from)
  }

  /** A call that continues execution leaves the dispatch at once. */
  lemma CallContinues(s: State, t: Tid)
    requires Inv(s) && Enabled(s, HandlerReturns(t, true))
    ensures
      var id := s.stacks[t][|s.stacks[t]| - 1].id;
      var s1 := Ended(s, t, id);
      var after := if At(s, id).references == 1 then Unlink(s1, id) else s1;
      && id in s.list && Follows(s, [HandlerReturns(t, true)], after) && Inv(after)
      && Answered(s, [HandlerReturns(t, true)], t, |s.stacks[t]|, [true])
  {
    hide Apply, Unlink, Ended, Walk, Answered, Follows;
    CallEnds(s, t, s.stacks[t][|s.stacks[t]| - 1].id);
    ReturnShape(s, t, true);
    ReturnKeeps(s, t, true);
    OneStep(s, HandlerReturns(t, true));
    OneAnswer(s, HandlerReturns(t, true), t, |s.stacks[t]|);
  }

  /** The saved successor takes the place of the entry that went. */
  lemma SuccessorTakesPlace(list: seq<Id>, id: Id)
    requires Distinct(list) && id in list
    ensures
      var left, k := Without(list, id), Find(list, id, 0);
      && k <= |left|
      && (SuccessorOf(list, id) == None ==> k == |left|)
      && (SuccessorOf(list, id).Some? ==>
        SuccessorOf(list, id).value in left && Find(left, SuccessorOf(list, id).value, 0) == k)
  {
    hide Distinct;
    WithoutDistinct(list, id);
    var left, k := Without(list, id), Find(list, id, 0);
    assert left == list[..k] + list[k + 1..];
    if k + 1 < |list| {
      hide Find;
      FindAt(left, k);
    }
  }

  /** The state between the unlock and the lock, and the state the walk goes on in. */
  lemma ResumesBehind(s1: State, list: seq<Id>, t: Tid, id: Id) returns (waiting: State)
    requires t in s1.stacks && Distinct(list) && s1.list == list && id in list
    ensures
      var after, k := Unlink(s1, id), Find(list, id, 0);
      && waiting == after.(stacks := s1.stacks[t := s1.stacks[t] + [Resuming(SuccessorOf(list, id))]])
      && Enabled(waiting, Resume(t)) && k <= |after.list|
      && Apply(waiting, Resume(t)) == Walk(after, t, after.stacks[t], k)
  {
    hide Without, Find, SuccessorOf, NextLive;
    SuccessorTakesPlace(list, id);
    var after := Unlink(s1, id);
    var below := s1.stacks[t];
    waiting := after.(stacks := s1.stacks[t := below + [Resuming(SuccessorOf(list, id))]]);
    assert waiting.stacks[t][..|below|] == below;
    assert s1.stacks[t := below + [Resuming(SuccessorOf(list, id))]][t := below] == s1.stacks;
    assert Popped(waiting, t) == after;
    ResumeShape(waiting, t);
    if SuccessorOf(list, id) == None {
      WalkEnds(after, t);
    }
  }

  lemma WalkEnds(s: State, t: Tid)
    requires t in s.stacks
    ensures Walk(s, t, s.stacks[t], |s.list|) == s
  {
    assert s.stacks[t := s.stacks[t]] == s.stacks;
  }

  lemma LastCallGoesOn(s: State, s1: State, t: Tid, id: Id, waiting: State) returns (steps: seq<Step>)
    requires Enabled(s, HandlerReturns(t, false)) && Apply(s, HandlerReturns(t, false)) == waiting
    requires t in s1.stacks && Distinct(s.list) && s1.list == s.list && id in s.list
    requires waiting == Unlink(s1, id).(stacks := s1.stacks[t := s1.stacks[t] + [Resuming(SuccessorOf(s.list, id))]])
    ensures steps == [HandlerReturns(t, false), Resume(t)]
    ensures Answered(s, steps, t, |s.stacks[t]|, [false])
    ensures Walking(s, steps, Unlink(s1, id), t, Find(s.list, id, 0))
  {
    hide Apply, Walk, Without, NextLive, SuccessorOf, Find, Answered, Follows;
    OneStep(s, HandlerReturns(t, false));
    var same := ResumesBehind(s1, s.list, t, id);
    OneStep(waiting, Resume(t));
    FollowsOn(s, [HandlerReturns(t, false)], waiting, [Resume(t)], Apply(waiting, Resume(t)));
    steps := [HandlerReturns(t, false)] + [Resume(t)];
    OneAnswer(s, HandlerReturns(t, false), t, |s.stacks[t]|);
    OneAnswer(waiting, Resume(t), t, |s.stacks[t]|);
    AnsweredJoin(s, [HandlerReturns(t, false)], waiting, [Resume(t)], t, |s.stacks[t]|, [false], []);
    assert [false] + [] == [false];
  }

  /** A call that does not continue execution lets the walk go on behind its entry. */
  lemma CallGoesOn(s: State, t: Tid) returns (steps: seq<Step>)
    requires Inv(s) && Enabled(s, HandlerReturns(t, false))
    ensures
      var id := s.stacks[t][|s.stacks[t]| - 1].id;
      var s1, k := Ended(s, t, id), Find(s.list, id, 0);
      var last := At(s, id).references == 1;
      var after := if last then Unlink(s1, id) else s1;
      id in s.list && Inv(after) && Walking(s, steps, after, t, if last then k else k + 1)
    ensures Answered(s, steps, t, |s.stacks[t]|, [false])
    ensures steps == [HandlerReturns(t, false)] || steps == [HandlerReturns(t, false), Resume(t)]
  {
    hide Apply, Walk, Without, NextLive, SuccessorOf, Find, Answered, Follows, Walking, Distinct, Sites;
    var id := s.stacks[t][|s.stacks[t]| - 1].id;
    var s1 := Ended(s, t, id);
    CallEnds(s, t, id);
    ReturnShape(s, t, false);
    if At(s, id).references == 1 {
      UnlinkKeeps(s1, id);
      steps := LastCallGoesOn(s, s1, t, id, Apply(s, HandlerReturns(t, false)));
    } else {
      steps := NextCall(s, s1, t, Find(s.list, id, 0) + 1);
    }
  }

  lemma NextCall(s: State, s1: State, t: Tid, k: nat) returns (steps: seq<Step>)
    requires Enabled(s, HandlerReturns(t, false)) && t in s1.stacks && k <= |s1.list|
    requires Apply(s, HandlerReturns(t, false)) == Walk(s1, t, s1.stacks[t], k)
    ensures steps == [HandlerReturns(t, false)] && Walking(s, steps, s1, t, k)
    ensures Answered(s, steps, t, |s.stacks[t]|, [false])
  {
    hide Apply, Walk, Answered, Follows;
    OneStep(s, HandlerReturns(t, false));
    OneAnswer(s, HandlerReturns(t, false), t, |s.stacks[t]|);
    steps := [HandlerReturns(t, false)];
  }

  /** Only live entries are called, and a walk passes over the others. */
  lemma WalkSkips(s: State, t: Tid, below: seq<Frame>, from: nat)
    requires from < |s.list| && s.list[from] in s.entries && s.entries[s.list[from]].deleted
    ensures Walk(s, t, below, from) == Walk(s, t, below, from + 1)
  {
  }

  lemma WalkingOn(start: State, steps: seq<Step>, mid: State, more: seq<Step>, s: State, t: Tid, from: nat)
    requires Follows(start, steps, mid) && Walking(mid, more, s, t, from)
    ensures Walking(start, steps + more, s, t, from)
  {
    hide Follows, Walk;
    FollowsOn(start, steps, mid, more, Walk(s, t, s.stacks[t], from));
  }

  /** What a handler did, and then the end of its call. */
  lemma CallJoin(called: State, steps: seq<Step>, mid: State, more: seq<Step>, s: State, t: Tid, from: nat, stop: bool)
    requires t in called.stacks && t in mid.stacks && mid.stacks == called.stacks
    requires Follows(called, steps, mid) && Answered(called, steps, t, |called.stacks[t]|, [])
    requires Answered(mid, more, t, |mid.stacks[t]|, [stop])
    requires if stop then Follows(mid, more, s) else Walking(mid, more, s, t, from)
    ensures Answered(called, steps + more, t, |called.stacks[t]|, [stop])
    ensures if stop then Follows(called, steps + more, s) else Walking(called, steps + more, s, t, from)
  {
    hide Follows, Answered, Walking;
    AnsweredJoin(called, steps, mid, more, t, |called.stacks[t]|, [], [stop]);
    assert [] + [stop] == [stop];
    if stop {
      FollowsOn(called, steps, mid, more, s);
    } else {
      WalkingOn(called, steps, mid, more, s, t, from);
    }
  }

  lemma WalkingReaches(start: State, steps: seq<Step>, s: State, t: Tid, from: nat)
    requires Walking(start, steps, s, t, from)
    ensures Follows(start, steps, Walk(s, t, s.stacks[t], from))
  {
    hide Follows, Walk;
  }

  lemma WalkingSkips(start: State, steps: seq<Step>, s: State, t: Tid, from: nat)
    requires Walking(start, steps, s, t, from) && from < |s.list|
    requires s.list[from] in s.entries && s.entries[s.list[from]].deleted
    ensures Walking(start, steps, s, t, from + 1)
  {
    hide Follows, Walk;
    WalkSkips(s, t, s.stacks[t], from);
  }

  lemma WalkingEnds(start: State, steps: seq<Step>, s: State, t: Tid)
    requires Walking(start, steps, s, t, |s.list|)
    ensures Follows(start, steps, s)
  {
    hide Follows;
    WalkEnds(s, t);
  }

  lemma RaiseStarts(s: State, t: Tid)
    requires Enabled(s, Raise(t))
    ensures Walking(s, [Raise(t)], s, t, 0) && Answered(s, [Raise(t)], t, |s.stacks[t]| + 1, [])
  {
    hide Follows, Answered;
    OneStep(s, Raise(t));
    OneAnswer(s, Raise(t), t, |s.stacks[t]| + 1);
  }
}
