/**
 Registration, removal and dispatch of exception handlers by any number of threads,
 with handlers that themselves add, remove and raise. A step is one stay under the
 list lock; between the unlock that frees an entry and the lock that resumes the walk
 the dispatcher holds only the successor it saved.
*/
module VehProtocol {
  import opened Sequences

  type Tid = nat
  type Id = nat   // entries in allocation order, so no two are alike

  datatype Registration = Registration(references: int, deleted: bool)

  /** A dispatch in progress on some thread's stack, innermost last. */
  datatype Frame =
    | Calling(id: Id)                  // the handler of `id` is running
    | Resuming(successor: Option<Id>)  // freed its entry; None is the end of the ring

  datatype State = State(
    list: seq<Id>,
    entries: map<Id, Registration>,
    stacks: map<Tid, seq<Frame>>,
    added: seq<bool>,       // the first-handler flag of every entry ever added, by number
    removed: seq<Id>,       // the handles for which Remove returned TRUE, in order
    freed: seq<Id>,
    strayed: bool)          // some walk resumed at an entry no longer in the list

  datatype Step =
    | Add(t: Tid, first: bool)
    | Remove(t: Tid, handle: Id)
    | Raise(t: Tid)
    | HandlerReturns(t: Tid, continueExecution: bool)
    | Resume(t: Tid)

  function Top(stack: seq<Frame>): Option<Frame> {
    if stack == [] then None else Some(stack[|stack| - 1])
  }

  /** A thread runs program code when it is in no dispatch or inside a handler. */
  predicate RunsCode(stack: seq<Frame>) {
    stack == [] || stack[|stack| - 1].Calling?
  }

  predicate Enabled(s: State, step: Step) {
    step.t in s.stacks &&
    var stack := s.stacks[step.t];
    match step
    case Add(_, _) => RunsCode(stack)
    case Remove(_, _) => RunsCode(stack)
    case Raise(_) => RunsCode(stack)
    case HandlerReturns(_, _) => stack != [] && stack[|stack| - 1].Calling?
    case Resume(_) => stack != [] && stack[|stack| - 1].Resuming?
  }

  /** Reading an entry that has been freed would give an arbitrary value; this is one. */
  function At(s: State, id: Id): Registration {
    if id in s.entries then s.entries[id] else Registration(0, false)
  }

  function Set(s: State, id: Id, references: int, deleted: bool): State {
    s.(entries := s.entries[id := Registration(references, deleted)])
  }

  function Unlink(s: State, id: Id): State {
    s.(list := Without(s.list, id), entries := s.entries - {id}, freed := s.freed + [id])
  }

  /** Index of the first entry at or after `from` that is not marked deleted. */
  function NextLive(list: seq<Id>, entries: map<Id, Registration>, from: nat): (k: nat)
    requires from <= |list|
    ensures from <= k <= |list|
    ensures k < |list| ==> list[k] in entries && !entries[list[k]].deleted
    ensures forall i :: from <= i < k ==> list[i] in entries ==> entries[list[i]].deleted
    decreases |list| - from
  {
    if from == |list| || (list[from] in entries && !entries[list[from]].deleted) then from
    else NextLive(list, entries, from + 1)
  }

  /** The walk goes on from index `from` for a frame that sits on top of `below`. */
  function Walk(s: State, t: Tid, below: seq<Frame>, from: nat): State
    requires from <= |s.list|
  {
    var k := NextLive(s.list, s.entries, from);
    if k == |s.list| then s.(stacks := s.stacks[t := below])
    else
      var id := s.list[k];
      Set(s, id, At(s, id).references + 1, At(s, id).deleted).(stacks := s.stacks[t := below + [Calling(id)]])
  }

  function SuccessorOf(list: seq<Id>, id: Id): Option<Id> {
    var k := Find(list, id, 0);
    if k + 1 < |list| then Some(list[k + 1]) else None
  }

  function DoRemove(s: State, handle: Id): State {
    if handle in s.list && !At(s, handle).deleted then
      var left := At(s, handle).references - 1;
      var s1 := Set(s, handle, left, true).(removed := s.removed + [handle]);
      if left == 0 then Unlink(s1, handle) else s1
    else s
  }

  function DoReturn(s: State, t: Tid, below: seq<Frame>, id: Id, continueExecution: bool): State {
    var left := At(s, id).references - 1;
    var s1 := Set(s, id, left, At(s, id).deleted);
    if left == 0 then
      var resume := if continueExecution then below else below + [Resuming(SuccessorOf(s.list, id))];
      Unlink(s1, id).(stacks := s.stacks[t := resume])
    else if continueExecution then s1.(stacks := s.stacks[t := below])
    else
      var k := Find(s.list, id, 0);
      Walk(s1, t, below, if k < |s.list| then k + 1 else k)
  }

  function DoResume(s: State, t: Tid, below: seq<Frame>, successor: Option<Id>): State {
    match successor
    case None => s.(stacks := s.stacks[t := below])
    case Some(id) =>
      if id in s.list then Walk(s, t, below, Find(s.list, id, 0))
      else s.(strayed := true, stacks := s.stacks[t := below])
  }

  function Apply(s: State, step: Step): State
    requires Enabled(s, step)
  {
    var t, stack := step.t, s.stacks[step.t];
    match step
    case Add(_, first) =>
      var id := |s.added|;
      Set(s, id, 1, false).(list := if first then [id] + s.list else s.list + [id], added := s.added + [first])
    case Remove(_, handle) => DoRemove(s, handle)
    case Raise(_) => Walk(s, t, stack, 0)
    case HandlerReturns(_, c) => DoReturn(s, t, stack[..|stack| - 1], stack[|stack| - 1].id, c)
    case Resume(_) => DoResume(s, t, stack[..|stack| - 1], stack[|stack| - 1].successor)
  }

  predicate Initial(s: State) {
    && s.list == [] && s.entries == map[] && s.added == [] && s.removed == [] && s.freed == [] && !s.strayed
    && forall t :: t in s.stacks ==> s.stacks[t] == []
  }

  predicate Run(states: seq<State>, steps: seq<Step>) {
    && |states| == |steps| + 1
    && Initial(states[0])
    && forall i {:trigger steps[i]} :: 0 <= i < |steps| ==>
      Enabled(states[i], steps[i]) && states[i + 1] == Apply(states[i], steps[i])
  }
}
