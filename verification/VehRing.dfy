/**
 The ring of entries in memory under handlers that do anything a program may do with it: register, unregister any
 handle, and raise again. Every dispatch over the ring is a run of the protocol, step for step, and keeps standing for
 its list.
*/
module VehRing {
  import opened Sequences
  import opened VehList
  import opened VehProtocol
  import opened VehInvariant
  import opened VehFollows
  import opened VehSuccessor

  /**
   What the handlers called by one dispatch do, call by call; handlers called after that do nothing. Whatever handlers
   decide while they run, a dispatch that ends has made finitely many calls, so some such value describes it.
  */
  datatype Calls = NoMore | Call(actions: Actions, continues: bool, rest: Calls)

  /** What one handler does before it returns. Handles are the numbers entries got when they were added. */
  datatype Actions =
    | Done
    | Register(first: bool, handler: Option<Handler>, memory: bool, hooked: bool, more: Actions)
    | Unregister(handle: Id, more: Actions)
    | Throw(calls: Calls, more: Actions)

  /** What is left of the calls after the first `n`. */
  function Behind(calls: Calls, n: nat): Calls {
    if n == 0 then calls else if calls == NoMore then NoMore else Behind(calls.rest, n - 1)
  }

  function Answer(calls: Calls): bool {
    calls.Call? && calls.continues
  }

  function Rest(calls: Calls): Calls {
    if calls.Call? then calls.rest else NoMore
  }

  lemma {:induction false} BehindOneMore(calls: Calls, n: nat)
    ensures Behind(calls, n + 1) == Rest(Behind(calls, n))
  {
    if n > 0 && calls != NoMore { BehindOneMore(calls.rest, n - 1); }
  }

  /** The handlers gave the answers they were to give, and only the last could end the dispatch. */
  ghost predicate Given(calls: Calls, answers: seq<bool>, handled: bool) {
    && (forall i :: 0 <= i < |answers| ==> answers[i] == Answer(Behind(calls, i)))
    && (handled ==> answers != [] && answers[|answers| - 1])
    && forall i :: 0 <= i < |answers| - (if handled then 1 else 0) ==> !answers[i]
  }

  lemma NothingGiven(calls: Calls)
    ensures Given(calls, [], false) && Behind(calls, 0) == calls
  {
  }

  lemma OneMoreGiven(calls: Calls, answers: seq<bool>, pending: Calls)
    requires Given(calls, answers, false) && pending == Behind(calls, |answers|)
    ensures Given(calls, answers + [Answer(pending)], Answer(pending))
    ensures Behind(calls, |answers + [Answer(pending)]|) == Rest(pending)
  {
    BehindOneMore(calls, |answers|);
  }

  // ----- what the ring stands for -----

  /** The items of the ring are the protocol's list, with the same counts and marks. */
  ghost predicate Stands(items: seq<Item>, made: seq<Entry>, s: State) {
    && |items| == |s.list|
    && forall i :: 0 <= i < |items| ==>
      && s.list[i] < |made| && items[i].entry == made[s.list[i]]
      && s.list[i] in s.entries && s.entries[s.list[i]] == Registration(items[i].references, items[i].deleted)
  }

  lemma StandsAdd(items: seq<Item>, made: seq<Entry>, s: State, t: Tid, e: Entry, h: Handler, first: bool)
    requires Stands(items, made, s) && |made| == |s.added| && Enabled(s, Add(t, first))
    ensures
      var item := Item(e, h, 1, false);
      Stands(if first then [item] + items else items + [item], made + [e], Apply(s, Add(t, first)))
  {
    hide Stands;
    var item, s' := Item(e, h, 1, false), Apply(s, Add(t, first));
    if first { StandsInFront(items, made, s, item, s'); } else { StandsAtEnd(items, made, s, item, s'); }
  }

  lemma StandsInFront(items: seq<Item>, made: seq<Entry>, s: State, item: Item, s': State)
    requires Stands(items, made, s) && s'.list == [|made|] + s.list
    requires s'.entries == s.entries[|made| := Registration(item.references, item.deleted)]
    ensures Stands([item] + items, made + [item.entry], s')
  {
  }

  lemma StandsAtEnd(items: seq<Item>, made: seq<Entry>, s: State, item: Item, s': State)
    requires Stands(items, made, s) && s'.list == s.list + [|made|]
    requires s'.entries == s.entries[|made| := Registration(item.references, item.deleted)]
    ensures Stands(items + [item], made + [item.entry], s')
  {
  }

  lemma StandsRemove(items: seq<Item>, made: seq<Entry>, s: State, t: Tid, handle: Id)
    requires Stands(items, made, s) && Distinct(s.list) && Enabled(s, Remove(t, handle))
    ensures
      var s' := Apply(s, Remove(t, handle));
      if handle in s.list && !At(s, handle).deleted then
        Find(s.list, handle, 0) < |items| && Stands(Unregistered(items, Find(s.list, handle, 0)), made, s')
      else s' == s
  {
    hide Find, Without, Stands, Distinct;
    if handle in s.list && !At(s, handle).deleted {
      var s', k := Apply(s, Remove(t, handle)), Find(s.list, handle, 0);
      StandsSize(items, made, s);
      StandsAt(items, made, s, k);
      WithoutAt(s.list, k);
      if items[k].references == 1 {
        StandsUnlinked(items, made, s, k, s');
      } else {
        StandsChanged(items, made, s, k, items[k].references - 1, true, s');
      }
    }
  }

  /** A handle is linked exactly when its entry is in the ring, and at the same place. */
  lemma HandleAt(entries: seq<Entry>, items: seq<Item>, made: seq<Entry>, s: State, handle: Id)
    requires Stands(items, made, s) && Distinct(made) && Distinct(s.list) && handle < |made|
    requires |entries| == |items| && forall i :: 0 <= i < |items| ==> items[i].entry == entries[i]
    ensures made[handle] in entries <==> handle in s.list
    ensures Find(entries, made[handle], 0) == Find(s.list, handle, 0)
    ensures handle in s.list ==>
      var k := Find(entries, made[handle], 0);
      k < |items| && entries[k] == made[handle]
      && items[k].deleted == At(s, handle).deleted && items[k].references == At(s, handle).references
  {
    var j, k := Find(entries, made[handle], 0), Find(s.list, handle, 0);
    assert forall i :: 0 <= i < |items| ==> (entries[i] == made[handle] <==> s.list[i] == handle);
  }

  lemma StandsCall(items: seq<Item>, made: seq<Entry>, s: State, t: Tid, below: seq<Frame>, k: nat)
    requires Stands(items, made, s) && Distinct(s.list) && k < |items| && !items[k].deleted
    ensures
      var s' := Walk(s, t, below, k);
      && Stands(items[k := items[k].(references := items[k].references + 1)], made, s')
      && s'.stacks == s.stacks[t := below + [Calling(s.list[k])]] && s'.added == s.added
  {
  }

  lemma StandsEnd(items: seq<Item>, made: seq<Entry>, s: State, t: Tid, k: nat)
    requires Stands(items, made, s) && Distinct(s.list) && k < |items| && t in s.stacks && s.stacks[t] != []
    ensures
      var s1 := Ended(s, t, s.list[k]);
      Stands(Settled(items, k), made, if items[k].references == 1 then Unlink(s1, s.list[k]) else s1)
  {
    hide Without, Stands, Distinct;
    StandsAt(items, made, s, k);
    WithoutAt(s.list, k);
    SettledIs(items, k);
    if items[k].references == 1 {
      StandsUnlinked(items, made, s, k, Unlink(Ended(s, t, s.list[k]), s.list[k]));
    } else {
      StandsChanged(items, made, s, k, items[k].references - 1, items[k].deleted, Ended(s, t, s.list[k]));
    }
  }

  lemma StandsUnlinked(items: seq<Item>, made: seq<Entry>, s: State, k: nat, s': State)
    requires Stands(items, made, s) && Distinct(s.list) && k < |items|
    requires k < |s.list| && s'.list == s.list[..k] + s.list[k + 1..]
    requires forall id :: id in s.entries && id != s.list[k] ==> id in s'.entries && s'.entries[id] == s.entries[id]
    ensures Stands(items[..k] + items[k + 1..], made, s')
  {
  }

  lemma StandsChanged(
    items: seq<Item>, made: seq<Entry>, s: State, k: nat, references: int, deleted: bool, s': State)
    requires Stands(items, made, s) && Distinct(s.list) && k < |items|
    requires k < |s.list| && s'.list == s.list
    requires s'.entries == s.entries[s.list[k] := Registration(references, deleted)]
    ensures Stands(items[k := items[k].(references := references, deleted := deleted)], made, s')
  {
  }

  lemma StandsSize(items: seq<Item>, made: seq<Entry>, s: State)
    requires Stands(items, made, s)
    ensures |items| == |s.list|
  {
  }

  /** However the handlers of one thread nest and change the ring, no walk over it resumes at a freed entry. */
  lemma OneThreadStaysOnTheRing(s: State, steps: seq<Step>, after: State, t: Tid)
    requires Initial(s) && s.stacks == map[t := []] && Follows(s, steps, after)
    ensures !after.strayed
  {
    hide Apply;
    var states := FollowsIsRun(s, steps, after);
    OneThreadIsSafe(states, steps, |steps|);
  }

  // ----- the ring -----

  /** The handler list as thread `t` uses it, and the handles it has given out. */
  class Dispatcher {
    const list: HandlerList
    const t: Tid
    var made: seq<Entry>
    ghost var state: State

    ghost predicate Valid()
      reads this, list, list.head, list.entries
    {
      && list.Valid() && Distinct(made) && list.head !in made && |made| == |state.added|
      && Inv(state) && t in state.stacks && Stands(list.Items(), made, state)
    }

    constructor (t: Tid)
      ensures Valid() && Initial(state) && state.stacks == map[t := []] && this.t == t
      ensures fresh(list) && fresh(list.head)
    {
      list := new HandlerList();
      this.t := t;
      made := [];
      state := State([], map[], map[t := []], [], [], [], false);
    }

    /** Registers; a failed registration, for want of a handler, of memory or of a hook, is no step at all. */
    method Add(first: bool, handler: Option<Handler>, memory: bool, hooked: bool)
      returns (e: Entry?, ghost steps: seq<Step>)
      requires Valid() && RunsCode(state.stacks[t])
      modifies this`made, this`state, list, list.Nodes()
      ensures Valid() && old(made) <= made
      ensures forall n :: n in list.Nodes() ==> n in old(list.Nodes()) || fresh(n)
      ensures e != null <==> handler.Some? && memory && hooked
      ensures steps == if e != null then [VehProtocol.Add(t, first)] else []
      ensures made == if e != null then old(made) + [e] else old(made)
      ensures Follows(old(state), steps, state) && state.stacks == old(state.stacks)
      ensures Answered(old(state), steps, t, |old(state).stacks[t]|, [])
    {
      hide Apply, Inv, Stands, Follows, Answered, Distinct;
      hide HandlerList.Linked, HandlerList.Valid, HandlerList.Items;
      NoStep(state, t, |state.stacks[t]|);
      ghost var items := list.Items();
      e := list.Add(first, handler, memory, hooked);
      steps := [];
      if e != null {
        ghost var step := VehProtocol.Add(t, first);
        steps := [step];
        StandsAdd(items, made, state, t, e, handler.value, first);
        AddKeeps(state, t, first);
        OneStep(state, step);
        OneAnswer(state, step, t, |state.stacks[t]|);
        AddEffect(state, t, first);
        DistinctMore(made, e);
        made := made + [e];
        state := Apply(state, step);
      }
    }

    /** Unregisters a handle, whether it is still linked or not. */
    method Remove(handle: Id) returns (found: bool)
      requires Valid() && RunsCode(state.stacks[t])
      modifies this`state, list, list.Nodes()
      ensures Valid()
      ensures list.Nodes() <= old(list.Nodes())
      ensures state == Apply(old(state), VehProtocol.Remove(t, handle)) && state.stacks == old(state.stacks)
      ensures found <==> handle in state.removed && handle !in old(state.removed)
    {
      hide Apply, Inv, Stands, Distinct, Find, Without, HandlerList.Linked;
      found := false;
      ghost var items, step := list.Items(), VehProtocol.Remove(t, handle);
      ListDistinct(state);
      StandsRemove(items, made, state, t, handle);
      RemoveEffect(state, t, handle);
      if handle < |made| {
        HandleAt(list.entries, items, made, state, handle);
        list.LinkedDistinct();
        ghost var k := Find(list.entries, made[handle], 0);
        assert handle in state.list ==> items[k].deleted == made[handle].deleted;
        var gone: Entry?;
        found, gone := list.Remove(made[handle]);
      } else {
        StandsBelow(items, made, state, handle);
      }
      state := Apply(state, step);
    }

    /** The handler of the live entry at index `k` is about to run. */
    method BeginCall(e: Entry, ghost k: nat)
      requires Valid() && RunsCode(state.stacks[t]) && k < |list.entries| && e == list.entries[k] && !e.deleted
      modifies this`state, list.Nodes()`references
      ensures Valid() && k < |old(state).list| && state == Walk(old(state), t, old(state).stacks[t], k)
      ensures state.stacks == old(state).stacks[t := old(state).stacks[t] + [Calling(old(state).list[k])]]
      ensures old(state).list[k] < |made| && made[old(state).list[k]] == e
    {
      hide Walk, Inv, Distinct, HandlerList.Linked, Stands;
      ghost var items := list.Items();
      ListDistinct(state);
      StandsAt(items, made, state, k);
      StandsCall(items, made, state, t, state.stacks[t], k);
      WalkKeeps(state, t, k);
      list.Hold(e, k);
      state := Walk(state, t, state.stacks[t], k);
    }

    /** The handler is back: its share goes, and perhaps the entry. */
    method EndCall(e: Entry, continues: bool) returns (next: Entry, ghost steps: seq<Step>, ghost from: nat)
      requires Valid() && state.stacks[t] != [] && state.stacks[t][|state.stacks[t]| - 1].Calling?
      requires var id := state.stacks[t][|state.stacks[t]| - 1].id; id < |made| && made[id] == e
      modifies this`state, list, list.Nodes()
      ensures Valid() && list.Nodes() <= old(list.Nodes())
      ensures state.stacks == old(state).stacks[t := old(state).stacks[t][..|old(state).stacks[t]| - 1]]
      ensures continues ==> steps == [HandlerReturns(t, true)] && Follows(old(state), steps, state)
      ensures !continues ==>
        && from <= |list.entries| && next == list.Ring()[from + 1] && Walking(old(state), steps, state, t, from)
        && (steps == [HandlerReturns(t, false)] || steps == [HandlerReturns(t, false), Resume(t)])
      ensures Answered(old(state), steps, t, |old(state).stacks[t]|, [continues])
      ensures !continues ==> |list.entries| - from == |old(list.entries)| - Find(old(list.entries), e, 0) - 1
    {
      hide Inv, Distinct, HandlerList.Linked, Stands, Follows, Answered, Walking, Find, Settled;
      ghost var items := list.Items();
      list.LinkedDistinct();
      ghost var k, after;
      steps, after, k := EndSteps(list.entries, items, made, state, t, continues);
      from := if items[k].references == 1 then k else k + 1;
      next := list.Settle(e, k);
      SettledSize(items, k);
      state := after;
    }

    lemma RunsHere()
      requires Valid()
      ensures t in state.stacks && list.Valid()
      ensures list.Linked() && |list.entries| == |state.list|
    {
    }

    lemma DeletedAlike(k: nat)
      requires Valid() && k < |list.entries|
      ensures k < |state.list| && state.list[k] in state.entries
      ensures state.entries[state.list[k]].deleted == list.entries[k].deleted
    {
      assert list.Items()[k].entry == list.entries[k];
    }

    /** What one handler does while it runs. */
    method RunActions(actions: Actions) returns (ghost steps: seq<Step>)
      requires Valid() && RunsCode(state.stacks[t])
      modifies this`made, this`state, list, list.Nodes()
      ensures Valid() && old(made) <= made
      ensures forall n :: n in list.Nodes() ==> n in old(list.Nodes()) || fresh(n)
      ensures Follows(old(state), steps, state) && state.stacks == old(state.stacks)
      ensures Answered(old(state), steps, t, |old(state).stacks[t]|, [])
      decreases actions, 0
    {
      hide Apply, Follows, Answered, Valid, HandlerList.Nodes;
      ghost var start := state;
      RunsHere();
      if actions == Done {
        NoStep(state, t, |state.stacks[t]|);
        return [];
      }
      match actions {
        case Register(first, handler, memory, hooked, _) =>
          var e;
          e, steps := Add(first, handler, memory, hooked);
        case Unregister(handle, _) =>
          var found := Remove(handle);
          steps := [VehProtocol.Remove(t, handle)];
          OneStep(start, steps[0]);
          OneAnswer(start, steps[0], t, |start.stacks[t]|);
        case Throw(calls, _) =>
          var handled;
          ghost var answers;
          handled, steps, answers := Dispatch(calls);
          AnsweredBelow(start, steps, t, |start.stacks[t]| + 1, answers);
      }
      ghost var mid := state;
      ghost var more := RunActions(actions.more);
      FollowsOn(start, steps, mid, more, state);
      ghost var none: seq<bool> := [];
      AnsweredJoin(start, steps, mid, more, t, |start.stacks[t]|, none, none);
      assert none + none == none;
      steps := steps + more;
    }

    /** The next handler of `pending` runs and answers. */
    method RunHandler(pending: Calls) returns (continues: bool, rest: Calls, ghost steps: seq<Step>)
      requires Valid() && RunsCode(state.stacks[t])
      modifies this`made, this`state, list, list.Nodes()
      ensures Valid() && old(made) <= made
      ensures forall n :: n in list.Nodes() ==> n in old(list.Nodes()) || fresh(n)
      ensures Follows(old(state), steps, state) && state.stacks == old(state.stacks)
      ensures Answered(old(state), steps, t, |old(state).stacks[t]|, [])
      ensures rest == Rest(pending) && continues == Answer(pending)
      ensures pending == NoMore ==> list.entries == old(list.entries)
      decreases pending, 0
    {
      hide Follows, Answered, Valid, HandlerList.Nodes;
      RunsHere();
      NoStep(state, t, |state.stacks[t]|);
      if pending == NoMore { return false, NoMore, []; }
      steps := RunActions(pending.actions);
      continues, rest := pending.continues, pending.rest;
    }

    /** One call of a live entry, from the count's way up to the step behind it. */
    method Visit(e: Entry, pending: Calls, ghost k: nat)
      returns (stop: bool, rest: Calls, next: Entry, ghost steps: seq<Step>, ghost from: nat)
      requires Valid() && RunsCode(state.stacks[t]) && k < |list.entries| && e == list.entries[k] && !e.deleted
      modifies this`made, this`state, list, list.Nodes()
      ensures Valid() && old(made) <= made
      ensures forall n :: n in list.Nodes() ==> n in old(list.Nodes()) || fresh(n)
      ensures state.stacks == old(state.stacks) && k < |old(state).list|
      ensures var called := Walk(old(state), t, old(state).stacks[t], k);
        if stop then Follows(called, steps, state)
        else from <= |list.entries| && next == list.Ring()[from + 1] && Walking(called, steps, state, t, from)
      ensures steps != [] && (stop <==> steps[|steps| - 1] == HandlerReturns(t, true))
      ensures Answered(Walk(old(state), t, old(state).stacks[t], k), steps, t, |old(state).stacks[t]| + 1, [stop])
      ensures rest == Rest(pending) && stop == Answer(pending)
      ensures pending == NoMore ==> |list.entries| - from < |old(list.entries)| - k
      decreases pending, 1
    {
      hide Follows, Answered, Walking, Walk, HandlerList.Nodes, HandlerList.Ring, Valid, Find, Distinct;
      ghost var below := state.stacks;
      RunsHere();
      list.LinkedDistinct();
      FindAt(list.entries, k);
      BeginCall(e, k);
      ghost var called := state;
      stop, rest, steps := RunHandler(pending);
      ghost var mid, more := state, [];
      next, more, from := EndCall(e, stop);
      CallJoin(called, steps, mid, more, state, t, if stop then 0 else from, stop);
      steps := steps + more;
      assert below[t := below[t]] == below;
    }

    /** Calls the live entries in ring order, whatever their handlers do to the ring, until one continues execution. */
    method Dispatch(calls: Calls) returns (handled: bool, ghost steps: seq<Step>, ghost answers: seq<bool>)
      requires Valid() && RunsCode(state.stacks[t])
      modifies this`made, this`state, list, list.Nodes()
      ensures Valid() && old(made) <= made
      ensures forall n :: n in list.Nodes() ==> n in old(list.Nodes()) || fresh(n)
      ensures Follows(old(state), steps, state) && state.stacks == old(state.stacks)
      ensures steps != [] && steps[0] == Raise(t) && (handled <==> steps[|steps| - 1] == HandlerReturns(t, true))
      ensures Answered(old(state), steps, t, |old(state).stacks[t]| + 1, answers)
      ensures Given(calls, answers, handled)
      decreases calls, 2
    {
      hide Follows, Answered, Walking, Walk, Inv, Distinct, Stands, Given, Behind, HandlerList.Linked;
      ghost var start, height := state, |state.stacks[t]| + 1;
      ghost var from: nat := 0;
      var pending := calls;
      RaiseStarts(state, t);
      NothingGiven(calls);
      steps, answers := [Raise(t)], [];
      list.FirstInRing();
      var current := list.head.flink;
      while current != list.head
        invariant Valid() && old(made) <= made && state.stacks == start.stacks
        invariant forall n :: n in list.Nodes() ==> n in old(list.Nodes()) || fresh(n)
        invariant from <= |list.entries| && current == list.Ring()[from + 1] && Walking(start, steps, state, t, from)
        invariant steps != [] && steps[0] == Raise(t) && steps[|steps| - 1] != HandlerReturns(t, true)
        invariant Answered(start, steps, t, height, answers)
        invariant Given(calls, answers, false) && pending == Behind(calls, |answers|)
        invariant pending == calls || pending < calls
        decreases pending, |list.entries| - from
      {
        if current.deleted {
          list.NextInRing(from);
          DeletedAlike(from);
          WalkingSkips(start, steps, state, t, from);
          current, from := current.flink, from + 1;
        } else {
          DeletedAlike(from);
          WalkingReaches(start, steps, state, t, from);
          ghost var more, called := [], Walk(state, t, state.stacks[t], from);
          OneMoreGiven(calls, answers, pending);
          handled, pending, current, more, from := Visit(current, pending, from);
          AnsweredJoin(start, steps, called, more, t, height, answers, [handled]);
          answers := answers + [handled];
          if handled {
            FollowsOn(start, steps, called, more, state);
            steps := steps + more;
            return;
          }
          WalkingOn(start, steps, called, more, state, t, from);
          steps := steps + more;
        }
      }
      RunsHere();
      WalkingEnds(start, steps, state, t);
      handled := false;
    }

    /** The hooked dispatcher: handlers first, then whatever the original dispatcher says. */
    method DispatchException(calls: Calls, original: bool)
      returns (result: bool, ghost steps: seq<Step>, ghost answers: seq<bool>)
      requires Valid() && RunsCode(state.stacks[t])
      modifies this`made, this`state, list, list.Nodes()
      ensures Valid() && Follows(old(state), steps, state) && state.stacks == old(state.stacks)
      ensures Answered(old(state), steps, t, |old(state).stacks[t]| + 1, answers)
      ensures Given(calls, answers, answers != [] && answers[|answers| - 1])
      ensures result == ((answers != [] && answers[|answers| - 1]) || original)
    {
      result, steps, answers := Dispatch(calls);
      assert result == (answers != [] && answers[|answers| - 1]);
      if result { return; }
      result := original;
    }
  }

  lemma StandsAt(items: seq<Item>, made: seq<Entry>, s: State, k: nat)
    requires Stands(items, made, s) && k < |items|
    ensures k < |s.list| && s.list[k] < |made| && made[s.list[k]] == items[k].entry && s.list[k] in s.entries
    ensures At(s, s.list[k]) == Registration(items[k].references, items[k].deleted)
  {
  }

  lemma ListDistinct(s: State)
    requires Inv(s)
    ensures Distinct(s.list)
  {
  }

  lemma StandsBelow(items: seq<Item>, made: seq<Entry>, s: State, handle: Id)
    requires Stands(items, made, s) && handle >= |made|
    ensures handle !in s.list
  {
  }

  lemma DistinctMore(made: seq<Entry>, e: Entry)
    requires Distinct(made) && e !in made
    ensures Distinct(made + [e])
  {
  }

  lemma AddEffect(s: State, t: Tid, first: bool)
    requires Enabled(s, Add(t, first))
    ensures var s' := Apply(s, Add(t, first)); |s'.added| == |s.added| + 1 && s'.stacks == s.stacks
  {
  }

  lemma RemoveEffect(s: State, t: Tid, handle: Id)
    requires Inv(s) && Enabled(s, Remove(t, handle))
    ensures
      var s' := Apply(s, Remove(t, handle));
      && Inv(s') && s'.stacks == s.stacks && s'.added == s.added
      && (handle in s'.removed && handle !in s.removed <==> handle in s.list && !At(s, handle).deleted)
  {
    hide Without, Inv;
    RemoveKeeps(s, handle);
    RemovedIsRecorded(s, handle);
  }

  /** What the end of a call is to the protocol, and where in the ring it takes place. */
  lemma EndSteps(entries: seq<Entry>, items: seq<Item>, made: seq<Entry>, s: State, t: Tid, continues: bool)
    returns (steps: seq<Step>, after: State, k: nat)
    requires Stands(items, made, s) && Inv(s) && Distinct(made) && Enabled(s, HandlerReturns(t, continues))
    requires |entries| == |items| && forall i :: 0 <= i < |items| ==> items[i].entry == entries[i]
    requires s.stacks[t][|s.stacks[t]| - 1].id < |made|
    ensures k < |items| && entries[k] == made[s.stacks[t][|s.stacks[t]| - 1].id] && k == Find(entries, entries[k], 0)
    ensures Stands(Settled(items, k), made, after) && Inv(after) && |after.added| == |s.added|
    ensures after.stacks == s.stacks[t := s.stacks[t][..|s.stacks[t]| - 1]]
    ensures Answered(s, steps, t, |s.stacks[t]|, [continues])
    ensures continues ==> steps == [HandlerReturns(t, true)] && Follows(s, steps, after)
    ensures !continues ==> Walking(s, steps, after, t, if items[k].references == 1 then k else k + 1)
    ensures !continues ==> steps == [HandlerReturns(t, false)] || steps == [HandlerReturns(t, false), Resume(t)]
  {
    hide Inv, Distinct, Stands, Follows, Answered, Walking, Find, Without, Settled;
    var id := s.stacks[t][|s.stacks[t]| - 1].id;
    ListDistinct(s);
    HandleAt(entries, items, made, s, id);
    if continues {
      CallContinues(s, t);
      steps := [HandlerReturns(t, true)];
    } else {
      steps := CallGoesOn(s, t);
    }
    k := Find(s.list, id, 0);
    EndEffect(s, t, id);
    StandsEnd(items, made, s, t, k);
    after := if items[k].references == 1 then Unlink(Ended(s, t, id), id) else Ended(s, t, id);
  }

  lemma SettledSize(items: seq<Item>, k: nat)
    requires k < |items|
    ensures |Settled(items, k)| == if items[k].references == 1 then |items| - 1 else |items|
  {
  }

  lemma EndEffect(s: State, t: Tid, id: Id)
    requires t in s.stacks && s.stacks[t] != []
    ensures
      var s1 := Ended(s, t, id);
      && s1.added == s.added && s1.stacks == s.stacks[t := s.stacks[t][..|s.stacks[t]| - 1]]
      && Unlink(s1, id).added == s.added && Unlink(s1, id).stacks == s1.stacks
  {
  }

  lemma RemovedIsRecorded(s: State, handle: Id)
    requires Inv(s)
    ensures handle in s.list ==> handle in s.entries && (handle in s.removed <==> s.entries[handle].deleted)
  {
  }
}
