/** Reference counts, linkage and frees of handler entries: the inductive invariant. */
module VehInvariant {
  import opened Sequences
  import opened VehProtocol

  /** Where, on all stacks together, the handler of `id` is running. */
  function Sites(stacks: map<Tid, seq<Frame>>, id: Id): set<(Tid, nat)> {
    set t, d | t in stacks && 0 <= d < |stacks[t]| && stacks[t][d] == Calling(id) :: (t, d)
  }

  /** A count is one for the registration, unless removed, plus one for every call in progress. */
  ghost predicate Counted(s: State) {
    && (forall id :: id in s.list <==> id in s.entries)
    && forall id :: id in s.entries ==>
         s.entries[id].references == (if s.entries[id].deleted then 0 else 1) + |Sites(s.stacks, id)|
  }

  predicate Positive(s: State) {
    forall id :: id in s.entries ==> s.entries[id].references > 0
  }

  predicate FramesOk(s: State) {
    && (forall t, d :: t in s.stacks && 0 <= d < |s.stacks[t]| && s.stacks[t][d].Calling? ==>
      s.stacks[t][d].id in s.list)
    && (forall t, d :: t in s.stacks && 0 <= d < |s.stacks[t]| && s.stacks[t][d].Resuming? ==> d == |s.stacks[t]| - 1)
  }

  /** Each entry ever added is linked or freed, never both; removal is recorded once. */
  ghost predicate HistoryOk(s: State) {
    && Distinct(s.list) && Distinct(s.freed) && Distinct(s.removed)
    && (forall id :: id in s.list ==> id < |s.added| && id !in s.freed)
    && (forall id: Id :: id < |s.added| ==> id in s.list || id in s.freed)
    && (forall id :: id in s.freed ==> id < |s.added| && id in s.removed)
    && (forall id :: id in s.removed ==> id < |s.added|)
    && (forall id :: id in s.entries ==> (s.entries[id].deleted <==> id in s.removed))
  }

  ghost predicate Inv(s: State) {
    Counted(s) && Positive(s) && FramesOk(s) && HistoryOk(s)
  }

  lemma PushSites(stacks: map<Tid, seq<Frame>>, t: Tid, f: Frame, id: Id)
    requires t in stacks
    ensures |Sites(stacks[t := stacks[t] + [f]], id)| == |Sites(stacks, id)| + (if f == Calling(id) then 1 else 0)
  {
    var after, site := stacks[t := stacks[t] + [f]], (t, |stacks[t]|);
    assert Sites(after, id) - {site} == Sites(stacks, id);
    Punctured(Sites(after, id), site);
  }

  /** Taking the top frame off `t`. */
  function Popped(s: State, t: Tid): State
    requires t in s.stacks && s.stacks[t] != []
  {
    s.(stacks := s.stacks[t := s.stacks[t][..|s.stacks[t]| - 1]])
  }

  lemma PopSites(s: State, t: Tid, id: Id)
    requires t in s.stacks && s.stacks[t] != []
    ensures |Sites(s.stacks, id)|
         == |Sites(Popped(s, t).stacks, id)| + (if s.stacks[t][|s.stacks[t]| - 1] == Calling(id) then 1 else 0)
  {
    var below, f := s.stacks[t][..|s.stacks[t]| - 1], s.stacks[t][|s.stacks[t]| - 1];
    PushSites(Popped(s, t).stacks, t, f, id);
    assert below + [f] == s.stacks[t];
    assert Popped(s, t).stacks[t := below + [f]] == s.stacks;
  }

  lemma PopFrames(s: State, t: Tid)
    requires FramesOk(s) && t in s.stacks && s.stacks[t] != []
    ensures FramesOk(Popped(s, t))
  {
  }

  /** A call returns: its frame goes and so does its share. The count may now be zero. */
  lemma CallEnds(s: State, t: Tid, id: Id)
    requires Inv(s) && t in s.stacks && s.stacks[t] != [] && s.stacks[t][|s.stacks[t]| - 1] == Calling(id)
    ensures id in s.list
    ensures var s1 := Ended(s, t, id);
      && Counted(s1) && FramesOk(s1) && HistoryOk(s1)
      && (forall other :: other in s1.entries && other != id ==> s1.entries[other].references > 0)
  {
    hide Distinct;
    assert s.stacks[t][|s.stacks[t]| - 1].id in s.list;
    var s1 := Ended(s, t, id);
    assert FramesOk(s1) by {
      hide Counted, HistoryOk, Positive;
      PopFrames(s, t);
    }
    assert Counted(s1) by {
      hide FramesOk, HistoryOk;
      EndedCounted(s, t, id);
    }
  }

  lemma EndedCounted(s: State, t: Tid, id: Id)
    requires Counted(s) && id in s.list && t in s.stacks && s.stacks[t] != []
    requires s.stacks[t][|s.stacks[t]| - 1] == Calling(id)
    ensures Counted(Ended(s, t, id))
  {
    hide Sites;
    forall other { PopSites(s, t, other); }
  }

  lemma UnlinkHistory(s: State, id: Id)
    requires Counted(s) && HistoryOk(s) && id in s.list && s.entries[id].deleted
    ensures HistoryOk(Unlink(s, id))
  {
    hide Without, Sites;
    WithoutDistinct(s.list, id);
  }

  /** An entry whose count reached zero has no call in progress, so it can go. */
  lemma UnlinkKeeps(s: State, id: Id)
    requires Counted(s) && FramesOk(s) && HistoryOk(s) && id in s.entries && s.entries[id].references == 0
    requires forall other :: other in s.entries && other != id ==> s.entries[other].references > 0
    ensures Inv(Unlink(s, id))
  {
    hide Without, Distinct;
    WithoutDistinct(s.list, id);
    UnlinkHistory(s, id);
    forall t, d | t in s.stacks && 0 <= d < |s.stacks[t]| && s.stacks[t][d].Calling? ensures s.stacks[t][d].id != id {
      assert (t, d) !in Sites(s.stacks, id);
    }
  }

  lemma ResumingKeeps(s: State, t: Tid, successor: Option<Id>)
    requires Inv(s) && t in s.stacks && RunsCode(s.stacks[t])
    ensures Inv(s.(stacks := s.stacks[t := s.stacks[t] + [Resuming(successor)]]))
  {
    forall id { PushSites(s.stacks, t, Resuming(successor), id); }
  }

  lemma CallStarts(s: State, t: Tid, id: Id)
    requires Inv(s) && t in s.stacks && RunsCode(s.stacks[t]) && id in s.entries && !s.entries[id].deleted
    ensures Inv(Set(s, id, s.entries[id].references + 1, false).(stacks := s.stacks[t := s.stacks[t] + [Calling(id)]]))
  {
    hide Distinct;
    var s' := Set(s, id, s.entries[id].references + 1, false).(stacks := s.stacks[t := s.stacks[t] + [Calling(id)]]);
    assert Counted(s') by {
      hide FramesOk, HistoryOk;
      CallCounted(s, t, id);
    }
    assert FramesOk(s') by {
      hide HistoryOk, Sites;
      CallFrames(s, t, id);
    }
    assert HistoryOk(s') by {
      hide Counted, FramesOk;
    }
  }

  lemma CallCounted(s: State, t: Tid, id: Id)
    requires Counted(s) && t in s.stacks && id in s.entries && !s.entries[id].deleted
    ensures
      var stacks := s.stacks[t := s.stacks[t] + [Calling(id)]];
      Counted(Set(s, id, s.entries[id].references + 1, false).(stacks := stacks))
  {
    hide Sites;
    forall x { PushSites(s.stacks, t, Calling(id), x); }
  }

  lemma CallFrames(s: State, t: Tid, id: Id)
    requires FramesOk(s) && t in s.stacks && RunsCode(s.stacks[t]) && id in s.list
    ensures FramesOk(s.(stacks := s.stacks[t := s.stacks[t] + [Calling(id)]]))
  {
  }

  /** The walk adds one call, with its share, or leaves the dispatch. */
  lemma WalkKeeps(s: State, t: Tid, from: nat)
    requires Inv(s) && t in s.stacks && from <= |s.list| && RunsCode(s.stacks[t])
    ensures Inv(Walk(s, t, s.stacks[t], from))
  {
    var k := NextLive(s.list, s.entries, from);
    if k < |s.list| {
      CallStarts(s, t, s.list[k]);
    } else {
      assert s.stacks[t := s.stacks[t]] == s.stacks;
    }
  }

  lemma AddKeeps(s: State, t: Tid, first: bool)
    requires Inv(s) && Enabled(s, Add(t, first))
    ensures Inv(Apply(s, Add(t, first)))
  {
    hide Sites;
    var id, s' := |s.added|, Apply(s, Add(t, first));
    assert id !in s.list;
    assert forall x :: x in s'.list <==> x == id || x in s.list;
    assert Sites(s.stacks, id) == {} by {
      hide Distinct;
      UncalledYet(s, id);
    }
    assert Counted(s') by { hide FramesOk, HistoryOk; }
    assert FramesOk(s') by { hide Counted, HistoryOk; }
  }

  lemma UncalledYet(s: State, id: Id)
    requires FramesOk(s) && id !in s.list
    ensures Sites(s.stacks, id) == {}
  {
  }

  /** The state once a registration has given up its share, before the entry goes. */
  function Marked(s: State, handle: Id): State {
    Set(s, handle, At(s, handle).references - 1, true).(removed := s.removed + [handle])
  }

  lemma MarkKeeps(s: State, handle: Id)
    requires Inv(s) && handle in s.list && !At(s, handle).deleted
    ensures var s1 := Marked(s, handle); Counted(s1) && FramesOk(s1) && HistoryOk(s1)
  {
    hide Sites;
    assert FramesOk(Marked(s, handle)) by { hide Counted, HistoryOk, Positive; }
  }

  lemma RemoveKeeps(s: State, handle: Id)
    requires Inv(s)
    ensures Inv(DoRemove(s, handle))
  {
    if handle in s.list && !At(s, handle).deleted {
      hide Sites, Distinct, Without;
      var s1 := Marked(s, handle);
      MarkKeeps(s, handle);
      if s1.entries[handle].references == 0 { UnlinkKeeps(s1, handle); }
    }
  }

  /** The state once the finished call's frame and share are gone. */
  function Ended(s: State, t: Tid, id: Id): State
    requires t in s.stacks && s.stacks[t] != []
  {
    Set(Popped(s, t), id, At(s, id).references - 1, At(s, id).deleted)
  }

  lemma ReturnShape(s: State, t: Tid, c: bool)
    requires Enabled(s, HandlerReturns(t, c)) && s.stacks[t][|s.stacks[t]| - 1].id in s.list
    ensures var id := s.stacks[t][|s.stacks[t]| - 1].id; var s1, k := Ended(s, t, id), Find(s.list, id, 0);
      k < |s.list| &&
      Apply(s, HandlerReturns(t, c)) ==
        if At(s, id).references == 1 then
          if c then Unlink(s1, id)
          else Unlink(s1, id).(stacks := s1.stacks[t := s1.stacks[t] + [Resuming(SuccessorOf(s.list, id))]])
        else if c then s1
        else Walk(s1, t, s1.stacks[t], k + 1)
  {
    hide Walk, Without, NextLive, SuccessorOf;
    var stack := s.stacks[t];
    var below, id := stack[..|stack| - 1], stack[|stack| - 1].id;
    var s1 := Set(s, id, At(s, id).references - 1, At(s, id).deleted);
    assert Ended(s, t, id) == s1.(stacks := s.stacks[t := below]);
    if At(s, id).references == 1 {
      assert s.stacks[t := below][t := below + [Resuming(SuccessorOf(s.list, id))]]
          == s.stacks[t := below + [Resuming(SuccessorOf(s.list, id))]];
    } else if !c {
      WalkOverwrites(s1, t, below, Find(s.list, id, 0) + 1);
    }
  }

  /** A walk replaces the whole stack of its thread. */
  lemma WalkOverwrites(s: State, t: Tid, below: seq<Frame>, from: nat)
    requires from <= |s.list|
    ensures Walk(s, t, below, from) == Walk(s.(stacks := s.stacks[t := below]), t, below, from)
  {
    var k := NextLive(s.list, s.entries, from);
    if k == |s.list| {
      assert s.stacks[t := below][t := below] == s.stacks[t := below];
    } else {
      assert s.stacks[t := below][t := below + [Calling(s.list[k])]] == s.stacks[t := below + [Calling(s.list[k])]];
    }
  }

  lemma LastShareKeeps(s1: State, t: Tid, id: Id, c: bool, successor: Option<Id>)
    requires Counted(s1) && FramesOk(s1) && HistoryOk(s1) && id in s1.entries && s1.entries[id].references == 0
    requires forall other :: other in s1.entries && other != id ==> s1.entries[other].references > 0
    requires t in s1.stacks && RunsCode(s1.stacks[t])
    ensures
      var after, waiting := Unlink(s1, id), s1.stacks[t := s1.stacks[t] + [Resuming(successor)]];
      Inv(if c then after else after.(stacks := waiting))
  {
    UnlinkKeeps(s1, id);
    ResumingKeeps(Unlink(s1, id), t, successor);
  }

  lemma ReturnKeeps(s: State, t: Tid, c: bool)
    requires Inv(s) && Enabled(s, HandlerReturns(t, c))
    ensures Inv(Apply(s, HandlerReturns(t, c)))
  {
    hide Walk, Without, NextLive, SuccessorOf, Unlink, Apply;
    var id := s.stacks[t][|s.stacks[t]| - 1].id;
    var s1 := Ended(s, t, id);
    CallEnds(s, t, id);
    ReturnShape(s, t, c);
    assert RunsCode(s1.stacks[t]) by { assert s1.stacks[t] == s.stacks[t][..|s.stacks[t]| - 1]; }
    if At(s, id).references == 1 {
      LastShareKeeps(s1, t, id, c, SuccessorOf(s.list, id));
    } else if !c {
      WalkKeeps(s1, t, Find(s.list, id, 0) + 1);
    }
  }

  lemma PopKeeps(s: State, t: Tid)
    requires Inv(s) && t in s.stacks && s.stacks[t] != [] && s.stacks[t][|s.stacks[t]| - 1].Resuming?
    ensures Inv(Popped(s, t)) && RunsCode(Popped(s, t).stacks[t])
  {
    forall id { PopSites(s, t, id); }
  }

  lemma ResumeShape(s: State, t: Tid)
    requires Enabled(s, Resume(t))
    ensures var s1, successor := Popped(s, t), s.stacks[t][|s.stacks[t]| - 1].successor;
      Apply(s, Resume(t)) ==
        if successor == None then s1
        else if successor.value in s.list then Walk(s1, t, s1.stacks[t], Find(s.list, successor.value, 0))
        else s1.(strayed := true)
  {
    var below, successor := s.stacks[t][..|s.stacks[t]| - 1], s.stacks[t][|s.stacks[t]| - 1].successor;
    if successor.Some? && successor.value in s.list {
      WalkOverwrites(s, t, below, Find(s.list, successor.value, 0));
    }
  }

  lemma ResumeKeeps(s: State, t: Tid)
    requires Inv(s) && Enabled(s, Resume(t))
    ensures Inv(Apply(s, Resume(t)))
  {
    var successor := s.stacks[t][|s.stacks[t]| - 1].successor;
    PopKeeps(s, t);
    ResumeShape(s, t);
    if successor.Some? && successor.value in s.list {
      WalkKeeps(Popped(s, t), t, Find(s.list, successor.value, 0));
    }
  }

  /** Every step of every thread keeps counts exact and links consistent. */
  lemma StepInv(s: State, step: Step)
    requires Inv(s) && Enabled(s, step)
    ensures Inv(Apply(s, step))
  {
    match step
    case Add(t, first) => AddKeeps(s, t, first);
    case Remove(_, handle) => RemoveKeeps(s, handle);
    case Raise(t) => WalkKeeps(s, t, 0);
    case HandlerReturns(t, c) => ReturnKeeps(s, t, c);
    case Resume(t) => ResumeKeeps(s, t);
  }

  lemma {:induction false} RunInv(states: seq<State>, steps: seq<Step>, k: nat)
    requires Run(states, steps) && k < |states|
    ensures Inv(states[k])
  {
    if k > 0 {
      RunInv(states, steps, k - 1);
      StepInv(states[k - 1], steps[k - 1]);
    }
  }
}
