/**
 Whom a dispatch calls, with any number of threads and any nesting: every entry that stays registered while the dispatch
 goes on, once, and in the order of the list.
*/
module VehCalls {
  import opened Sequences
  import opened VehProtocol
  import opened VehInvariant
  import opened VehTheorems
  import opened VehSuccessor

  /** Linked and not removed. */
  predicate Live(s: State, x: Id) { x in s.list && x in s.entries && !s.entries[x].deleted }

  function Place(s: State, x: Id): nat { Find(s.list, x, 0) }

  /** Dispatch number `d` on the stack of `t` is under way. */
  predicate UnderWay(s: State, t: Tid, d: nat) { t in s.stacks && |s.stacks[t]| > d }

  /** That dispatch is calling `x`. */
  predicate Now(s: State, t: Tid, d: nat, x: Id) { UnderWay(s, t, d) && s.stacks[t][d] == Calling(x) }

  /** It has not come to `x` yet. */
  predicate NotYet(s: State, t: Tid, d: nat, x: Id) {
    UnderWay(s, t, d) &&
    match s.stacks[t][d]
    case Calling(id) => id in s.list && Place(s, id) < Place(s, x)
    case Resuming(successor) =>
      successor.Some? && successor.value < |s.added|
        && (successor.value in s.list ==> Place(s, successor.value) <= Place(s, x))
  }

  /** It is behind `x`. */
  predicate Past(s: State, t: Tid, d: nat, x: Id) {
    UnderWay(s, t, d) &&
    match s.stacks[t][d]
    case Calling(id) => id in s.list && Place(s, x) < Place(s, id)
    case Resuming(successor) => successor.Some? ==>
      successor.value < |s.added| && (successor.value in s.list ==> Place(s, x) < Place(s, successor.value))
  }

  // ----- the list keeps its order -----

  lemma PlaceInFront(list: seq<Id>, n: Id, x: Id)
    requires x in list && n != x
    ensures Find([n] + list, x, 0) == Find(list, x, 0) + 1
  {
    var k, j := Find(list, x, 0), Find([n] + list, x, 0);
    assert ([n] + list)[k + 1] == x;
    if j > 0 { assert ([n] + list)[j] == list[j - 1]; }
    assert forall i :: 0 < i < k + 1 ==> ([n] + list)[i] == list[i - 1];
  }

  lemma PlaceAtEnd(list: seq<Id>, n: Id, x: Id)
    requires x in list
    ensures Find(list + [n], x, 0) == Find(list, x, 0)
  {
    var k, j := Find(list, x, 0), Find(list + [n], x, 0);
    assert (list + [n])[k] == x;
  }

  lemma PlaceWithout(list: seq<Id>, id: Id, x: Id)
    requires Distinct(list) && x in list && id in list && x != id
    ensures Find(Without(list, id), x, 0) == Find(list, x, 0) - (if Find(list, id, 0) < Find(list, x, 0) then 1 else 0)
  {
    var k, g := Find(list, x, 0), Find(list, id, 0);
    var rest := Without(list, id);
    WithoutDistinct(list, id);
    var at := if g < k then k - 1 else k;
    assert rest[at] == x;
    FindAt(rest, at);
  }

  /** What stays linked keeps its order. */
  lemma OrderKept(s: State, step: Step, x: Id, y: Id)
    requires Inv(s) && Enabled(s, step) && x in s.list && y in s.list
    requires x in Apply(s, step).list && y in Apply(s, step).list
    ensures var s' := Apply(s, step);
      && (Place(s, x) < Place(s, y) <==> Place(s', x) < Place(s', y))
      && (Place(s, x) <= Place(s, y) <==> Place(s', x) <= Place(s', y))
  {
    hide Apply, Find, Without;
    var s', n := Apply(s, step), |s.added|;
    assert Distinct(s.list) && n !in s.list;
    ListMoves(s, step);
    if step.Add? && step.first {
      PlaceInFront(s.list, n, x);
      PlaceInFront(s.list, n, y);
    } else if step.Add? {
      PlaceAtEnd(s.list, n, x);
      PlaceAtEnd(s.list, n, y);
    } else if s'.list != s.list || s'.freed != s.freed {
      var id :| id in s.list && s'.list == Without(s.list, id) && s'.freed == s.freed + [id];
      WithoutDistinct(s.list, id);
      PlaceWithout(s.list, id, x);
      PlaceWithout(s.list, id, y);
      OnePlace(s.list, id, x);
      OnePlace(s.list, id, y);
    }
  }

  lemma OnePlace(list: seq<Id>, a: Id, b: Id)
    requires a in list && b in list && a != b
    ensures Find(list, a, 0) != Find(list, b, 0)
  {
  }

  /** Entries have numbers below the next one, and only the next one can join. */
  lemma Joins(s: State, step: Step, y: Id)
    requires Inv(s) && Enabled(s, step)
    ensures |s.added| <= |Apply(s, step).added|
    ensures y < |s.added| && y in Apply(s, step).list ==> y in s.list
    ensures y in s.list ==> y < |s.added|
  {
    hide Apply, Find, Without;
    ListMoves(s, step);
    var s' := Apply(s, step);
    if !step.Add? && (s'.list != s.list || s'.freed != s.freed) {
      var id :| id in s.list && s'.list == Without(s.list, id) && s'.freed == s.freed + [id];
      WithoutDistinct(s.list, id);
    }
  }

  // ----- one step -----

  /** A step that leaves the frame alone leaves the dispatch where it is. */
  lemma FrameStays(s: State, step: Step, t: Tid, d: nat, x: Id)
    requires Inv(s) && Enabled(s, step) && UnderWay(s, t, d) && x in s.list && x in Apply(s, step).list
    requires Inv(Apply(s, step)) && UnderWay(Apply(s, step), t, d) && Apply(s, step).stacks[t][d] == s.stacks[t][d]
    ensures NotYet(s, t, d, x) ==> NotYet(Apply(s, step), t, d, x)
    ensures Now(s, t, d, x) ==> Now(Apply(s, step), t, d, x)
    ensures Past(s, t, d, x) ==> Past(Apply(s, step), t, d, x)
  {
    hide Apply, Find, Counted, HistoryOk, Positive;
    var s', frame := Apply(s, step), s.stacks[t][d];
    match frame
    case Calling(id) =>
      assert id in s.list && id in s'.list;
      OrderKept(s, step, x, id);
      OrderKept(s, step, id, x);
    case Resuming(successor) =>
      if successor.Some? {
        Joins(s, step, successor.value);
        if successor.value < |s.added| && successor.value in s'.list {
          OrderKept(s, step, x, successor.value);
          OrderKept(s, step, successor.value, x);
        }
      }
  }

  /** A walk from `from` comes to the first live entry there is from there on. */
  lemma WalkComes(s: State, t: Tid, from: nat, x: Id)
    requires Distinct(s.list) && t in s.stacks && from <= |s.list| && Live(s, x)
    ensures var s', d := Walk(s, t, s.stacks[t], from), |s.stacks[t]|;
      && (from <= Place(s, x) ==> NotYet(s', t, d, x) || Now(s', t, d, x))
      && (from > Place(s, x) ==> Past(s', t, d, x) || s'.stacks[t] == s.stacks[t])
      && s'.list == s.list && s'.added == s.added && t in s'.stacks
  {
    var k := NextLive(s.list, s.entries, from);
    var p := Place(s, x);
    if k < |s.list| { FindAt(s.list, k); }
  }

  /** Whether the step moves the frame: the call of frame `d` returns, or frame `d` resumes. */
  predicate Moves(s: State, step: Step, t: Tid, d: nat) {
    step.t == t && t in s.stacks && |s.stacks[t]| == d + 1 && (step.HandlerReturns? || step.Resume?)
  }

  lemma OthersLeaveFrame(s: State, step: Step, t: Tid, d: nat)
    requires Inv(s) && Enabled(s, step) && UnderWay(s, t, d) && !Moves(s, step, t, d)
    ensures UnderWay(Apply(s, step), t, d) && Apply(s, step).stacks[t][d] == s.stacks[t][d]
  {
    if step.t != t {
      hide Apply;
      OthersStay(s, step);
    } else if step.HandlerReturns? {
      hide Apply;
      ReturnLeavesBelow(s, t, step.continueExecution);
    } else if step.Resume? {
      hide Apply;
      ResumeLeavesBelow(s, t);
    } else {
      hide Without, Find, NextLive, Inv;
    }
  }

  lemma ReturnLeavesBelow(s: State, t: Tid, c: bool)
    requires Inv(s) && Enabled(s, HandlerReturns(t, c))
    ensures t in Apply(s, HandlerReturns(t, c)).stacks
    ensures s.stacks[t][..|s.stacks[t]| - 1] <= Apply(s, HandlerReturns(t, c)).stacks[t]
  {
    hide Apply, Walk, Without, NextLive, SuccessorOf, Find, Counted, Positive, HistoryOk;
    var id := s.stacks[t][|s.stacks[t]| - 1].id;
    assert id in s.list;
    ReturnShape(s, t, c);
    var s1 := Ended(s, t, id);
    assert s1.stacks[t] == s.stacks[t][..|s.stacks[t]| - 1];
    WalkStack(s1, t, Find(s.list, id, 0) + 1);
  }

  lemma ResumeLeavesBelow(s: State, t: Tid)
    requires Enabled(s, Resume(t))
    ensures t in Apply(s, Resume(t)).stacks
    ensures s.stacks[t][..|s.stacks[t]| - 1] <= Apply(s, Resume(t)).stacks[t]
  {
    hide Apply, Walk, NextLive, Find;
    ResumeShape(s, t);
    var s1, successor := Popped(s, t), s.stacks[t][|s.stacks[t]| - 1].successor;
    if successor.Some? && successor.value in s.list { WalkStack(s1, t, Find(s.list, successor.value, 0)); }
  }

  lemma WalkStack(s: State, t: Tid, from: nat)
    requires t in s.stacks && from <= |s.list|
    ensures t in Walk(s, t, s.stacks[t], from).stacks && s.stacks[t] <= Walk(s, t, s.stacks[t], from).stacks[t]
  {
  }

  /** The call of frame `d` ends the dispatch, or the walk goes on behind its entry. */
  lemma ReturnMoves(s: State, t: Tid, c: bool, d: nat, x: Id)
    requires Inv(s) && Enabled(s, HandlerReturns(t, c)) && Moves(s, HandlerReturns(t, c), t, d)
    requires Live(s, x) && Live(Apply(s, HandlerReturns(t, c)), x)
    ensures var s' := Apply(s, HandlerReturns(t, c));
      && t in s'.stacks && (c ==> !UnderWay(s', t, d))
      && (!c && NotYet(s, t, d, x) ==> NotYet(s', t, d, x) || Now(s', t, d, x))
      && (Now(s, t, d, x) || Past(s, t, d, x) ==> Past(s', t, d, x) || !UnderWay(s', t, d))
  {
    hide Apply, Walk, Without, NextLive, SuccessorOf, Find, Counted, Positive;
    var id := s.stacks[t][d].id;
    assert id in s.list;
    ReturnShape(s, t, c);
    var s1, k := Ended(s, t, id), Find(s.list, id, 0);
    assert s1.stacks[t] == s.stacks[t][..d];
    if At(s, id).references == 1 {
      if !c { LastCallMoves(s, s1, t, d, id, x); }
    } else if !c {
      if id != x { OnePlace(s.list, id, x); }
      WalkComes(s1, t, k + 1, x);
    }
  }

  lemma LastCallMoves(s: State, s1: State, t: Tid, d: nat, id: Id, x: Id)
    requires Distinct(s.list) && s1.list == s.list && s1.added == s.added && id in s.list && x in s.list
    requires forall y :: y in s.list ==> y < |s.added|
    requires t in s.stacks && |s.stacks[t]| == d + 1 && s.stacks[t][d] == Calling(id)
    requires t in s1.stacks && s1.stacks[t] == s.stacks[t][..d]
    requires x in Unlink(s1, id).list
    ensures var s' := Unlink(s1, id).(stacks := s1.stacks[t := s1.stacks[t] + [Resuming(SuccessorOf(s.list, id))]]);
      && (NotYet(s, t, d, x) ==> NotYet(s', t, d, x))
      && !Now(s, t, d, x)
      && (Past(s, t, d, x) ==> Past(s', t, d, x))
  {
    hide Without, Find;
    WithoutDistinct(s.list, id);
    var k := Find(s.list, id, 0);
    PlaceWithout(s.list, id, x);
    if k + 1 < |s.list| {
      var y := s.list[k + 1];
      FindAt(s.list, k + 1);
      PlaceWithout(s.list, id, y);
    }
  }

  /** Frame `d` resumes: the walk goes on at the saved successor, unless that has been freed. */
  lemma ResumeMoves(s: State, t: Tid, d: nat, x: Id)
    requires Inv(s) && Enabled(s, Resume(t)) && Moves(s, Resume(t), t, d) && Live(s, x)
    ensures var s' := Apply(s, Resume(t));
      && t in s'.stacks && !Now(s, t, d, x)
      && (NotYet(s, t, d, x) ==> NotYet(s', t, d, x) || Now(s', t, d, x) || s'.strayed)
      && (Past(s, t, d, x) ==> Past(s', t, d, x) || !UnderWay(s', t, d))
  {
    hide Apply, Walk, NextLive, Find, Counted, Positive, FramesOk;
    ResumeShape(s, t);
    var s1, successor := Popped(s, t), s.stacks[t][d].successor;
    assert s1.stacks[t] == s.stacks[t][..d];
    if successor.Some? && successor.value in s.list {
      WalkComes(s1, t, Find(s.list, successor.value, 0), x);
    }
  }

  /** What a step of any thread does to a dispatch under way, as far as a live entry goes. */
  lemma StepMoves(s: State, step: Step, t: Tid, d: nat, x: Id)
    requires Inv(s) && Enabled(s, step) && Inv(Apply(s, step)) && UnderWay(s, t, d)
    requires Live(s, x) && Live(Apply(s, step), x)
    ensures var s' := Apply(s, step);
      && (NotYet(s, t, d, x) ==>
        NotYet(s', t, d, x) || Now(s', t, d, x) || s'.strayed
        || (step == HandlerReturns(t, true) && !UnderWay(s', t, d)))
      && (Now(s, t, d, x) ==> Now(s', t, d, x) || Past(s', t, d, x) || !UnderWay(s', t, d))
      && (Past(s, t, d, x) ==> Past(s', t, d, x) || !UnderWay(s', t, d))
  {
    hide Apply, Inv, NotYet, Past, Now, Live;
    if !Moves(s, step, t, d) {
      OthersLeaveFrame(s, step, t, d);
      assert x in s.list && x in Apply(s, step).list by { LiveIsLinked(s, x); LiveIsLinked(Apply(s, step), x); }
      FrameStays(s, step, t, d, x);
    } else if step.HandlerReturns? {
      ReturnMoves(s, t, step.continueExecution, d, x);
    } else {
      ResumeMoves(s, t, d, x);
    }
  }

  lemma LiveIsLinked(s: State, x: Id)
    requires Live(s, x)
    ensures x in s.list
  {
  }

  /** Now and behind exclude each other. */
  lemma NotBoth(s: State, t: Tid, d: nat, x: Id)
    ensures !(Now(s, t, d, x) && Past(s, t, d, x))
  {
  }

  // ----- runs -----

  /** `x` is registered from `i` to `j`. */
  ghost predicate Steady(states: seq<State>, i: nat, j: nat, x: Id) {
    forall k :: i <= k <= j && k < |states| ==> Live(states[k], x)
  }

  /** Step `i` begins dispatch number `d` of `t`, and it is under way up to `k`. */
  ghost predicate Dispatching(states: seq<State>, steps: seq<Step>, i: nat, k: nat, t: Tid, d: nat) {
    && i < k < |states| && i < |steps| && steps[i] == Raise(t) && t in states[i].stacks && |states[i].stacks[t]| == d
    && forall m :: i < m <= k ==> UnderWay(states[m], t, d)
  }

  /** It has called `x` by `k`. */
  ghost predicate HasCalled(states: seq<State>, i: nat, k: nat, t: Tid, d: nat, x: Id)
    requires k < |states|
  {
    exists m :: i < m <= k && Now(states[m], t, d, x)
  }

  lemma RaiseComes(s: State, t: Tid, x: Id)
    requires Inv(s) && Enabled(s, Raise(t)) && Live(s, x)
    ensures var s', d := Apply(s, Raise(t)), |s.stacks[t]|; NotYet(s', t, d, x) || Now(s', t, d, x)
  {
    hide Walk, Counted, Positive, FramesOk;
    WalkComes(s, t, 0, x);
  }

  lemma OneOfARun(states: seq<State>, steps: seq<Step>, k: nat)
    requires Run(states, steps) && k + 1 < |states|
    ensures |states| == |steps| + 1
    ensures Enabled(states[k], steps[k]) && states[k + 1] == Apply(states[k], steps[k])
    ensures Inv(states[k]) && Inv(states[k + 1])
    ensures states[k].strayed ==> states[k + 1].strayed
  {
    hide Apply, Inv;
    RunInv(states, steps, k);
    RunInv(states, steps, k + 1);
    assert Enabled(states[k], steps[k]) && states[k + 1] == Apply(states[k], steps[k]);
    FlagAfter(states[k], steps[k]);
  }

  lemma RunLength(states: seq<State>, steps: seq<Step>)
    requires Run(states, steps)
    ensures |states| == |steps| + 1
  {
  }

  lemma HasCalledGrows(states: seq<State>, i: nat, k: nat, t: Tid, d: nat, x: Id)
    requires i < k && k + 1 < |states|
    ensures HasCalled(states, i, k, t, d, x) || Now(states[k + 1], t, d, x) ==> HasCalled(states, i, k + 1, t, d, x)
  {
  }

  /** Up to `k` the dispatch has called a registered entry, or has not come to it. */
  lemma {:induction false} CalledOrAhead(
    states: seq<State>, steps: seq<Step>, i: nat, k: nat, t: Tid, d: nat, x: Id)
    requires Run(states, steps) && Dispatching(states, steps, i, k, t, d) && Steady(states, i, k, x)
    requires !states[k].strayed
    ensures HasCalled(states, i, k, t, d, x) || NotYet(states[k], t, d, x)
    decreases k
  {
    hide Run, Inv, Apply, NotYet, Now, HasCalled, Live, UnderWay;
    OneOfARun(states, steps, k - 1);
    assert Live(states[k - 1], x) && Live(states[k], x);
    if k == i + 1 {
      RaiseComes(states[i], t, x);
      if Now(states[k], t, d, x) { assert HasCalled(states, i, k, t, d, x) by { NowIsCalled(states, i, k, t, d, x); } }
    } else {
      CalledOrAhead(states, steps, i, k - 1, t, d, x);
      assert UnderWay(states[k - 1], t, d) && UnderWay(states[k], t, d);
      StepMoves(states[k - 1], steps[k - 1], t, d, x);
      HasCalledGrows(states, i, k - 1, t, d, x);
    }
  }

  lemma NowIsCalled(states: seq<State>, i: nat, k: nat, t: Tid, d: nat, x: Id)
    requires i < k < |states| && Now(states[k], t, d, x)
    ensures HasCalled(states, i, k, t, d, x)
  {
  }

  /**
   Nobody is skipped: a dispatch that ends without a handler continuing execution, and without straying, has called
   every entry that was registered all the while.
  */
  lemma NobodySkipped(states: seq<State>, steps: seq<Step>, i: nat, k: nat, t: Tid, d: nat, x: Id)
    requires Run(states, steps) && Dispatching(states, steps, i, k, t, d) && k < |steps|
    requires !UnderWay(states[k + 1], t, d) && steps[k] != HandlerReturns(t, true)
    requires Steady(states, i, k + 1, x) && !states[k + 1].strayed
    ensures HasCalled(states, i, k, t, d, x)
  {
    hide Run, Inv, Apply, HasCalled, Live;
    assert k + 1 < |states| by { RunLength(states, steps); }
    OneOfARun(states, steps, k);
    CalledOrAhead(states, steps, i, k, t, d, x);
    assert Live(states[k], x) && Live(states[k + 1], x);
    StepMoves(states[k], steps[k], t, d, x);
  }

  lemma {:induction false} StaysBehind(
    states: seq<State>, steps: seq<Step>, i: nat, m: nat, k: nat, t: Tid, d: nat, x: Id)
    requires Run(states, steps) && Dispatching(states, steps, i, k, t, d) && i < m <= k && Steady(states, i, k, x)
    ensures Past(states[m], t, d, x) ==> Past(states[k], t, d, x)
    ensures Now(states[m], t, d, x) ==> Now(states[k], t, d, x) || Past(states[k], t, d, x)
    decreases k
  {
    hide Run, Inv, Apply, Past, Now, Live, UnderWay;
    if m < k {
      OneOfARun(states, steps, k - 1);
      assert UnderWay(states[k - 1], t, d) && UnderWay(states[k], t, d);
      assert Live(states[k - 1], x) && Live(states[k], x);
      StaysBehind(states, steps, i, m, k - 1, t, d, x);
      StepMoves(states[k - 1], steps[k - 1], t, d, x);
    }
  }

  /** Nobody is called twice: between two moments of a call of `x` it is the same call. */
  lemma CalledOnce(states: seq<State>, steps: seq<Step>, i: nat, m: nat, l: nat, k: nat, t: Tid, d: nat, x: Id)
    requires Run(states, steps) && Dispatching(states, steps, i, k, t, d) && i < m <= l <= k && Steady(states, i, k, x)
    requires Now(states[m], t, d, x) && Now(states[k], t, d, x)
    ensures Now(states[l], t, d, x)
  {
    hide Run, Past, Now, Live, UnderWay;
    StaysBehind(states, steps, i, m, l, t, d, x);
    StaysBehind(states, steps, i, l, k, t, d, x);
    NotBoth(states[k], t, d, x);
  }

  lemma {:induction false} OrderStays(states: seq<State>, steps: seq<Step>, i: nat, k: nat, x: Id, y: Id)
    requires Run(states, steps) && i <= k < |states| && Steady(states, i, k, x) && Steady(states, i, k, y)
    requires Place(states[i], x) < Place(states[i], y)
    ensures Place(states[k], x) < Place(states[k], y)
    decreases k
  {
    hide Run, Inv, Apply, Place;
    if i < k {
      OrderStays(states, steps, i, k - 1, x, y);
      OneOfARun(states, steps, k - 1);
      assert Live(states[k - 1], x) && Live(states[k], x) && Live(states[k - 1], y) && Live(states[k], y);
      OrderKept(states[k - 1], steps[k - 1], x, y);
    }
  }

  /** Calls follow the list: when an entry is called, every registered one before it has been. */
  lemma CalledInOrder(states: seq<State>, steps: seq<Step>, i: nat, k: nat, t: Tid, d: nat, x: Id, y: Id)
    requires Run(states, steps) && Dispatching(states, steps, i, k, t, d) && !states[k].strayed
    requires Steady(states, i, k, x) && Steady(states, i, k, y) && Place(states[i], x) < Place(states[i], y)
    requires Now(states[k], t, d, y)
    ensures exists m :: i < m < k && Now(states[m], t, d, x)
  {
    hide Run, Inv, Apply, Live, Place;
    CalledOrAhead(states, steps, i, k, t, d, x);
    OrderStays(states, steps, i, k, x, y);
  }

  /** A handler that continues execution ends its dispatch at once, and the ones around it go on where they were. */
  lemma ContinuesAtOnce(states: seq<State>, steps: seq<Step>, k: nat, t: Tid)
    requires Run(states, steps) && k < |steps| && steps[k] == HandlerReturns(t, true)
    ensures t in states[k].stacks && t in states[k + 1].stacks && states[k].stacks[t] != []
    ensures states[k + 1].stacks[t] == states[k].stacks[t][..|states[k].stacks[t]| - 1]
  {
    hide Run, Apply, Inv, Without, Walk;
    assert k + 1 < |states| by { RunLength(states, steps); }
    OneOfARun(states, steps, k);
    var s := states[k];
    var id := s.stacks[t][|s.stacks[t]| - 1].id;
    assert id in s.list by { CallEnds(s, t, id); }
    ReturnShape(s, t, true);
  }
}
