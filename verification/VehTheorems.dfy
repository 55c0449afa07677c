/** What every run of the handler list guarantees, whatever the handlers do. */
module VehTheorems {
  import opened Sequences
  import opened VehProtocol
  import opened VehInvariant

  /**
   Reference counts: every linked entry counts its registration, unless removed, and its calls in
   progress, and is there for every one of them.
  */
  lemma ReferenceCounts(states: seq<State>, steps: seq<Step>, k: nat)
    requires Run(states, steps) && k < |states|
    ensures var s := states[k];
      && (forall id :: id in s.list ==> (
            && id in s.entries && s.entries[id].references > 0
            && s.entries[id].references == (if id in s.removed then 0 else 1) + |Sites(s.stacks, id)|))
      && (forall id :: Sites(s.stacks, id) != {} ==> id in s.list)
  {
    RunInv(states, steps, k);
    var s := states[k];
    forall id | Sites(s.stacks, id) != {} ensures id in s.list {
      var site :| site in Sites(s.stacks, id);
    }
  }

  /**
   Unlinked and freed exactly once: an entry ever added is either linked or freed, it is freed once,
   and it is freed as soon as, and only when, it has been removed and no call of it is in progress.
  */
  lemma FreedExactlyOnce(states: seq<State>, steps: seq<Step>, k: nat)
    requires Run(states, steps) && k < |states|
    ensures var s := states[k];
      && Distinct(s.freed) && Distinct(s.list) && Distinct(s.removed)
      && (forall id: Id :: id < |s.added| <==> id in s.list || id in s.freed)
      && (forall id :: id in s.list ==> id !in s.freed)
      && (forall id :: id in s.freed <==> id in s.removed && Sites(s.stacks, id) == {})
  {
    RunInv(states, steps, k);
    var s := states[k];
    forall id, t, d | id in s.freed && t in s.stacks && 0 <= d < |s.stacks[t]| ensures s.stacks[t][d] != Calling(id) {
      assert id !in s.list;
    }
    forall id | id in s.list && id in s.removed ensures |Sites(s.stacks, id)| > 0 {
      assert id in s.entries;
    }
  }

  lemma WalkCallsLive(s: State, t: Tid, below: seq<Frame>, from: nat, id: Id)
    requires t in s.stacks && from <= |s.list| && (id in s.entries ==> s.entries[id].deleted)
    requires below <= s.stacks[t]
    ensures Sites(Walk(s, t, below, from).stacks, id) <= Sites(s.stacks, id)
  {
  }

  lemma NoNewCallOnReturn(s: State, t: Tid, c: bool, id: Id)
    requires Inv(s) && Enabled(s, HandlerReturns(t, c)) && id in s.removed
    ensures Sites(Apply(s, HandlerReturns(t, c)).stacks, id) <= Sites(s.stacks, id)
  {
    hide Apply, Walk, Without, NextLive, SuccessorOf;
    var called := s.stacks[t][|s.stacks[t]| - 1].id;
    ReturnShape(s, t, c);
    var s1 := Ended(s, t, called);
    assert Sites(s1.stacks, id) <= Sites(s.stacks, id);
    if At(s, called).references != 1 && !c {
      WalkCallsLive(s1, t, s1.stacks[t], Find(s.list, called, 0) + 1, id);
    }
  }

  lemma NoNewCallOnResume(s: State, t: Tid, id: Id)
    requires Inv(s) && Enabled(s, Resume(t)) && id in s.removed
    ensures Sites(Apply(s, Resume(t)).stacks, id) <= Sites(s.stacks, id)
  {
    ResumeShape(s, t);
    var s1, successor := Popped(s, t), s.stacks[t][|s.stacks[t]| - 1].successor;
    assert Sites(s1.stacks, id) <= Sites(s.stacks, id);
    if successor.Some? && successor.value in s.list {
      WalkCallsLive(s1, t, s1.stacks[t], Find(s.list, successor.value, 0), id);
    }
  }

  lemma NoNewCall(s: State, step: Step, id: Id)
    requires Inv(s) && Enabled(s, step) && id in s.removed
    ensures Sites(Apply(s, step).stacks, id) <= Sites(s.stacks, id)
  {
    match step
    case Add(_, _) =>
    case Remove(_, _) =>
    case Raise(t) => WalkCallsLive(s, t, s.stacks[t], 0, id);
    case HandlerReturns(t, c) => NoNewCallOnReturn(s, t, c, id);
    case Resume(t) => NoNewCallOnResume(s, t, id);
  }

  lemma RemovedStays(s: State, step: Step)
    requires Enabled(s, step)
    ensures s.removed <= Apply(s, step).removed
  {
  }

  /** Once Remove has returned TRUE for a handle, no call of that handler ever starts again. */
  lemma {:induction false} NoCallAfterRemove(states: seq<State>, steps: seq<Step>, i: nat, j: nat, id: Id)
    requires Run(states, steps) && i <= j < |states| && id in states[i].removed
    ensures id in states[j].removed && Sites(states[j].stacks, id) <= Sites(states[i].stacks, id)
  {
    if i < j {
      NoCallAfterRemove(states, steps, i, j - 1, id);
      RunInv(states, steps, j - 1);
      NoNewCall(states[j - 1], steps[j - 1], id);
      RemovedStays(states[j - 1], steps[j - 1]);
    }
  }

  // ----- order of registration -----

  /** The list a sequence of registrations builds when nothing is ever removed. */
  function AllAdded(added: seq<bool>): seq<Id> {
    if added == [] then []
    else
      var n := |added| - 1;
      if added[n] then [n] + AllAdded(added[..n]) else AllAdded(added[..n]) + [n]
  }

  function Numbers(added: seq<bool>, first: bool): seq<Id> {
    if added == [] then []
    else
      var n := |added| - 1;
      if added[n] == first then Numbers(added[..n], first) + [n] else Numbers(added[..n], first)
  }

  function Reverse(s: seq<Id>): seq<Id> {
    if s == [] then [] else [s[|s| - 1]] + Reverse(s[..|s| - 1])
  }

  /** First-handlers newest first, then the others oldest first. */
  lemma {:induction false} RegistrationOrder(added: seq<bool>)
    ensures AllAdded(added) == Reverse(Numbers(added, true)) + Numbers(added, false)
  {
    if added != [] {
      var n := |added| - 1;
      RegistrationOrder(added[..n]);
      if added[n] {
        var firsts := Numbers(added[..n], true);
        assert Reverse(firsts + [n]) == [n] + Reverse(firsts) by { assert (firsts + [n])[..|firsts|] == firsts; }
      }
    }
  }

  function Except(s: seq<Id>, gone: seq<Id>): seq<Id> {
    if s == [] then []
    else if s[0] in gone then Except(s[1..], gone)
    else [s[0]] + Except(s[1..], gone)
  }

  lemma {:induction false} ExceptAppend(a: seq<Id>, b: seq<Id>, gone: seq<Id>)
    ensures Except(a + b, gone) == Except(a, gone) + Except(b, gone)
  {
    if a == [] {
      assert a + b == b;
    } else {
      ExceptAppend(a[1..], b, gone);
      assert (a + b)[1..] == a[1..] + b;
      var first, second := Except(a[1..], gone), Except(b, gone);
      assert [a[0]] + (first + second) == ([a[0]] + first) + second;
    }
  }

  lemma {:induction false} ExceptMembers(s: seq<Id>, gone: seq<Id>)
    ensures forall x :: x in Except(s, gone) <==> x in s && x !in gone
    ensures Distinct(s) ==> Distinct(Except(s, gone))
  {
    if s != [] {
      ExceptMembers(s[1..], gone);
      assert Distinct(s) ==> Distinct(s[1..]) && s[0] !in s[1..];
    }
  }

  lemma WithoutCons(y: Id, rest: seq<Id>, x: Id)
    requires Distinct([y] + rest)
    ensures Without([y] + rest, x) == if x == y then rest else [y] + Without(rest, x)
  {
    var s := [y] + rest;
    assert rest == s[1..];
    if x == y {
      WithoutAt(s, 0);
    } else if x in rest {
      var k := Find(rest, x, 0);
      FindAt(s, k + 1);
      hide Find, Distinct;
      assert s[..k + 1] == [y] + rest[..k] && s[k + 2..] == rest[k + 1..];
    }
  }

  /** One more name off the list is that name taken out. */
  lemma {:induction false} ExceptOneMore(s: seq<Id>, gone: seq<Id>, x: Id)
    requires Distinct(s) && x !in gone
    ensures Except(s, gone + [x]) == Without(Except(s, gone), x)
  {
    if s != [] {
      assert Distinct(s[1..]) && s[0] !in s[1..];
      ExceptOneMore(s[1..], gone, x);
      ExceptMembers(s, gone);
      ExceptMembers(s[1..], gone);
      if s[0] !in gone {
        WithoutCons(s[0], Except(s[1..], gone), x);
        if s[0] == x { assert x !in Except(s[1..], gone); }
      }
    }
  }

  lemma {:induction false} ExceptTwice(s: seq<Id>, some: seq<Id>, more: seq<Id>)
    requires forall x :: x in some ==> x in more
    ensures Except(Except(s, some), more) == Except(s, more)
  {
    if s != [] {
      ExceptTwice(s[1..], some, more);
      if s[0] !in some {
        var kept := [s[0]] + Except(s[1..], some);
        assert kept[1..] == Except(s[1..], some);
      }
    }
  }

  lemma {:induction false} AllAddedMembers(added: seq<bool>)
    ensures Distinct(AllAdded(added)) && forall id: Id :: id in AllAdded(added) <==> id < |added|
  {
    if added != [] {
      var n := |added| - 1;
      var rest := AllAdded(added[..n]);
      AllAddedMembers(added[..n]);
      assert n !in rest && AllAdded(added) == if added[n] then [n] + rest else rest + [n];
    }
  }

  /** A step registers one entry, or frees one, or leaves the list as it is. */
  lemma ListMoves(s: State, step: Step)
    requires Inv(s) && Enabled(s, step)
    ensures var s' := Apply(s, step);
      if step.Add? then
        && s'.added == s.added + [step.first] && s'.freed == s.freed
        && s'.list == if step.first then [|s.added|] + s.list else s.list + [|s.added|]
      else
        && s'.added == s.added
        && ((s'.list == s.list && s'.freed == s.freed)
            || exists id :: id in s.list && s'.list == Without(s.list, id) && s'.freed == s.freed + [id])
  {
    hide Without, Find, NextLive, SuccessorOf, Sites, Distinct;
    if step.Remove? && step.handle in s.list && !At(s, step.handle).deleted {
      assert Apply(s, step) == DoRemove(s, step.handle);
    }
  }

  ghost predicate Ordered(s: State) {
    s.list == Except(AllAdded(s.added), s.freed)
  }

  lemma OrderStep(s: State, step: Step)
    requires Inv(s) && Ordered(s) && Enabled(s, step)
    ensures Ordered(Apply(s, step))
  {
    ListMoves(s, step);
    var s' := Apply(s, step);
    AllAddedMembers(s.added);
    if step.Add? {
      assert s'.added[..|s.added|] == s.added;
      assert |s.added| !in s.freed;
      assert Except([|s.added|], s.freed) == [|s.added|];
      ExceptAppend([|s.added|], AllAdded(s.added), s.freed);
      ExceptAppend(AllAdded(s.added), [|s.added|], s.freed);
    } else if s'.list != s.list || s'.freed != s.freed {
      var id :| id in s.list && s'.list == Without(s.list, id) && s'.freed == s.freed + [id];
      ExceptOneMore(AllAdded(s.added), s.freed, id);
    }
  }

  /**
   The ring refines the history: at every moment it is the first-handlers newest first, then the
   others oldest first, less the freed ones; less the removed ones, it is what a dispatch may call.
  */
  lemma {:induction false} ListIsTheHistory(states: seq<State>, steps: seq<Step>, k: nat)
    requires Run(states, steps) && k < |states|
    ensures var s := states[k]; var all := Reverse(Numbers(s.added, true)) + Numbers(s.added, false);
      s.list == Except(all, s.freed) && Except(s.list, s.removed) == Except(all, s.removed)
  {
    OrderInv(states, steps, k);
    RunInv(states, steps, k);
    RegistrationOrder(states[k].added);
    ExceptTwice(AllAdded(states[k].added), states[k].freed, states[k].removed);
  }

  lemma {:induction false} OrderInv(states: seq<State>, steps: seq<Step>, k: nat)
    requires Run(states, steps) && k < |states|
    ensures Ordered(states[k])
  {
    if k > 0 {
      OrderInv(states, steps, k - 1);
      RunInv(states, steps, k - 1);
      OrderStep(states[k - 1], steps[k - 1]);
    }
  }
}
