/**
 How a lock or condition-variable slot gets its state object: every caller that finds the
 slot empty builds a candidate, one compare-exchange decides, and losers destroy theirs.
*/
module LazyState {
  import opened Sequences

  type Tid = nat
  type Object = nat   // numbered in allocation order, so no two are alike

  datatype Pc =
    | Idle
    | FoundEmpty
    | Candidate(mine: Object)
    | Beaten(mine: Object, winner: Object)

  datatype State = State(
    slot: Option<Object>,
    callers: map<Tid, Pc>,
    created: nat,
    freed: seq<Object>,
    results: seq<Option<Object>>)

  datatype Op = Look | AllocationFails | Allocate | NoEvents | CompareExchange | Destroy

  datatype Step = Step(t: Tid, op: Op)

  predicate Enabled(s: State, step: Step) {
    step.t in s.callers &&
    var pc := s.callers[step.t];
    match step.op
    case Look => pc == Idle
    case AllocationFails => pc == FoundEmpty
    case Allocate => pc == FoundEmpty
    case NoEvents => pc.Candidate?
    case CompareExchange => pc.Candidate?
    case Destroy => pc.Beaten?
  }

  function Goto(s: State, t: Tid, pc: Pc): State {
    s.(callers := s.callers[t := pc])
  }

  function Return(s: State, t: Tid, r: Option<Object>): State {
    Goto(s, t, Idle).(results := s.results + [r])
  }

  function Apply(s: State, step: Step): State
    requires Enabled(s, step)
  {
    var t, pc := step.t, s.callers[step.t];
    match step.op
    case Look => if s.slot.Some? then Return(s, t, s.slot) else Goto(s, t, FoundEmpty)
    case AllocationFails => Return(s, t, None)
    case Allocate => Goto(s, t, Candidate(s.created)).(created := s.created + 1)
    case NoEvents => Return(s, t, None).(freed := s.freed + [pc.mine])
    case CompareExchange =>
      if s.slot.Some? then Goto(s, t, Beaten(pc.mine, s.slot.value))
      else Return(s, t, Some(pc.mine)).(slot := Some(pc.mine))
    case Destroy => Return(s, t, Some(pc.winner)).(freed := s.freed + [pc.mine])
  }

  predicate Initial(s: State) {
    && s.slot == None && s.created == 0 && s.freed == [] && s.results == []
    && forall t :: t in s.callers ==> s.callers[t] == Idle
  }

  predicate Run(states: seq<State>, steps: seq<Step>) {
    && |states| == |steps| + 1
    && Initial(states[0])
    && forall i {:trigger steps[i]} :: 0 <= i < |steps| ==>
      Enabled(states[i], steps[i]) && states[i + 1] == Apply(states[i], steps[i])
  }

  predicate Carries(pc: Pc) { pc.Candidate? || pc.Beaten? }

  function Carriers(s: State): set<Tid> {
    set t | t in s.callers && Carries(s.callers[t])
  }

  /** Nobody carries the installed object, a freed one, or one that another carries. */
  ghost predicate Owned(s: State) {
    && (s.slot.Some? ==> s.slot.value < s.created && s.slot.value !in s.freed)
    && (forall t :: t in s.callers && Carries(s.callers[t]) ==>
          s.callers[t].mine < s.created && s.slot != Some(s.callers[t].mine) && s.callers[t].mine !in s.freed)
    && (forall t, u :: t in s.callers && u in s.callers && t != u && Carries(s.callers[t]) && Carries(s.callers[u])
          ==> s.callers[t].mine != s.callers[u].mine)
  }

  ghost predicate FreedOnce(s: State) {
    Distinct(s.freed) && forall i :: 0 <= i < |s.freed| ==> s.freed[i] < s.created
  }

  /** Whoever was beaten or has succeeded knows the installed object. */
  predicate Agreed(s: State) {
    && (forall t :: t in s.callers && s.callers[t].Beaten? ==> s.slot == Some(s.callers[t].winner))
    && (forall i :: 0 <= i < |s.results| ==> s.results[i] == None || s.results[i] == s.slot)
  }

  predicate Accounted(s: State) {
    s.created == |s.freed| + (if s.slot.Some? then 1 else 0) + |Carriers(s)|
  }

  ghost predicate Inv(s: State) {
    Owned(s) && FreedOnce(s) && Agreed(s) && Accounted(s)
  }

  lemma Recount(s: State, s': State, t: Tid)
    requires t in s.callers && t in s'.callers && s'.callers == s.callers[t := s'.callers[t]]
    ensures |Carriers(s')|
      == |Carriers(s)| - (if Carries(s.callers[t]) then 1 else 0) + (if Carries(s'.callers[t]) then 1 else 0)
  {
    assert Carriers(s') - {t} == Carriers(s) - {t};
    Punctured(Carriers(s), t);
    Punctured(Carriers(s'), t);
  }

  predicate Frees(op: Op) { op == NoEvents || op == Destroy }

  lemma StepAccounted(s: State, step: Step)
    requires Accounted(s) && Enabled(s, step)
    ensures Accounted(Apply(s, step))
  {
    hide Carriers;
    Recount(s, Apply(s, step), step.t);
  }

  lemma FreeingOwned(s: State, step: Step)
    requires Owned(s) && Enabled(s, step) && Frees(step.op)
    ensures Owned(Apply(s, step))
  {
  }

  lemma BuildingOwned(s: State, step: Step)
    requires Owned(s) && FreedOnce(s) && Enabled(s, step) && !Frees(step.op)
    ensures Owned(Apply(s, step))
  {
    hide Distinct;
  }

  lemma StepFreed(s: State, step: Step)
    requires Owned(s) && FreedOnce(s) && Enabled(s, step)
    ensures FreedOnce(Apply(s, step))
  {
    if Frees(step.op) {
      var mine := s.callers[step.t].mine;
      assert mine < s.created && mine !in s.freed;
      hide Owned;
    }
  }

  lemma StepAgreed(s: State, step: Step)
    requires Agreed(s) && Enabled(s, step)
    ensures Agreed(Apply(s, step))
  {
  }

  lemma StepInv(s: State, step: Step)
    requires Inv(s) && Enabled(s, step)
    ensures Inv(Apply(s, step))
    ensures s.slot.Some? ==> Apply(s, step).slot == s.slot
  {
    if Frees(step.op) { FreeingOwned(s, step); } else { BuildingOwned(s, step); }
    StepFreed(s, step);
    StepAgreed(s, step);
    StepAccounted(s, step);
    hide Owned, FreedOnce, Agreed, Accounted;
  }

  lemma {:induction false} RunInv(states: seq<State>, steps: seq<Step>, k: nat)
    requires Run(states, steps) && k < |states|
    ensures Inv(states[k])
  {
    if k == 0 {
      assert Carriers(states[0]) == {};
    } else {
      RunInv(states, steps, k - 1);
      StepInv(states[k - 1], steps[k - 1]);
    }
  }

  /** Whatever the interleaving, an installed object stays installed and is never freed. */
  lemma {:induction false} OneWinner(states: seq<State>, steps: seq<Step>, i: nat, j: nat)
    requires Run(states, steps) && i <= j < |states|
    ensures states[i].slot.Some? ==> states[j].slot == states[i].slot && states[j].slot.value !in states[j].freed
  {
    hide Apply, Enabled, FreedOnce, Agreed, Accounted;
    RunInv(states, steps, j);
    if i < j {
      OneWinner(states, steps, i, j - 1);
      RunInv(states, steps, j - 1);
      StepInv(states[j - 1], steps[j - 1]);
    }
  }

  /** All successful callers get the same object, and nothing leaks or is freed twice. */
  lemma Publication(states: seq<State>, steps: seq<Step>, k: nat)
    requires Run(states, steps) && k < |states|
    ensures var s := states[k];
      && (forall i, j :: 0 <= i < |s.results| && 0 <= j < |s.results| && s.results[i].Some? && s.results[j].Some?
            ==> s.results[i] == s.results[j] == s.slot)
      && Distinct(s.freed)
      && s.created == |s.freed| + (if s.slot.Some? then 1 else 0) + |Carriers(s)|
  {
    RunInv(states, steps, k);
  }

  // ----- what each call returns -----

  predicate Fails(op: Op) { op == AllocationFails || op == NoEvents }

  function Failures(steps: seq<Step>): nat {
    if steps == [] then 0
    else Failures(steps[..|steps| - 1]) + if Fails(steps[|steps| - 1].op) then 1 else 0
  }

  function CallsBegun(steps: seq<Step>): nat {
    if steps == [] then 0
    else CallsBegun(steps[..|steps| - 1]) + if steps[|steps| - 1].op == Look then 1 else 0
  }

  function Nulls(results: seq<Option<Object>>): nat {
    if results == [] then 0
    else Nulls(results[..|results| - 1]) + if results[|results| - 1] == None then 1 else 0
  }

  function Busy(s: State): set<Tid> {
    set t | t in s.callers && s.callers[t] != Idle
  }

  /** A step returns at most once; a failing step returns NULL, and every other return gives the installed object. */
  lemma StepReturns(s: State, step: Step)
    requires Inv(s) && Enabled(s, step)
    ensures var s' := Apply(s, step);
      && step.t in s'.callers && s'.callers == s.callers[step.t := s'.callers[step.t]]
      && if s'.callers[step.t] != Idle then s'.results == s.results
         else s'.results == s.results + [if Fails(step.op) then None else s'.slot] && (s'.slot.Some? || Fails(step.op))
  {
    hide Owned, FreedOnce, Accounted;
  }

  lemma NullsSnoc(results: seq<Option<Object>>, r: Option<Object>)
    ensures Nulls(results + [r]) == Nulls(results) + if r == None then 1 else 0
  {
    assert (results + [r])[..|results|] == results;
  }

  lemma BusyMoves(s: State, s': State, t: Tid)
    requires t in s.callers && t in s'.callers && s'.callers == s.callers[t := s'.callers[t]]
    ensures |Busy(s')| == |Busy(s)| - (if s.callers[t] != Idle then 1 else 0) + (if s'.callers[t] != Idle then 1 else 0)
  {
    assert Busy(s') - {t} == Busy(s) - {t};
    Punctured(Busy(s), t);
    Punctured(Busy(s'), t);
  }

  lemma StepCounts(s: State, step: Step)
    requires Inv(s) && Enabled(s, step)
    ensures var s' := Apply(s, step);
      && Nulls(s'.results) == Nulls(s.results) + (if Fails(step.op) then 1 else 0)
      && |s'.results| + |Busy(s')| == |s.results| + |Busy(s)| + (if step.op == Look then 1 else 0)
  {
    hide Inv, Busy, Nulls;
    var s' := Apply(s, step);
    StepReturns(s, step);
    BusyMoves(s, s', step.t);
    if s'.callers[step.t] == Idle { NullsSnoc(s.results, if Fails(step.op) then None else s'.slot); }
  }

  /**
   Every call begun has returned once or is in progress, and NULL is returned exactly as often as an allocation or an
   event failed: a caller that finds the slot set, wins or loses the race gets the installed object.
  */
  lemma {:induction false} EveryCallAnswered(states: seq<State>, steps: seq<Step>, k: nat)
    requires Run(states, steps) && k < |states|
    ensures var s := states[k];
      && |s.results| + |Busy(s)| == CallsBegun(steps[..k])
      && Nulls(s.results) == Failures(steps[..k])
      && forall i :: 0 <= i < |s.results| ==> s.results[i] == None || (s.slot.Some? && s.results[i] == s.slot)
  {
    RunInv(states, steps, k);
    if k == 0 {
      assert Busy(states[0]) == {};
    } else {
      hide Apply, Enabled, Busy;
      EveryCallAnswered(states, steps, k - 1);
      RunInv(states, steps, k - 1);
      StepCounts(states[k - 1], steps[k - 1]);
      assert steps[..k][..k - 1] == steps[..k - 1];
    }
  }

  /** In any state a run can be in, the step by which a call returns says what it returns. */
  lemma ReturnedBy(states: seq<State>, steps: seq<Step>, i: nat, k: nat)
    requires Run(states, steps) && i < k < |states|
    requires |states[i + 1].results| > |states[i].results|
    ensures var r := states[i + 1].results[|states[i].results|];
      if Fails(steps[i].op) then r == None else r.Some? && r == states[k].slot
  {
    RunInv(states, steps, i);
    StepReturns(states[i], steps[i]);
    OneWinner(states, steps, i + 1, k);
  }

  /** A call under way needs nobody: three steps of its own at most, and it has returned the installed object. */
  lemma CallReturns(s: State, t: Tid) returns (own: seq<Op>, after: State)
    requires Inv(s) && t in s.callers && s.callers[t] != Idle
    ensures |own| <= 3 && Follows(s, t, own, after)
    ensures t in after.callers && after.callers[t] == Idle && after.slot.Some?
    ensures |after.results| == |s.results| + 1 && after.results[|s.results|] == after.slot
    ensures s.slot.Some? ==> after.slot == s.slot
  {
    match s.callers[t]
    case FoundEmpty =>
      var s1 := Apply(s, Step(t, Allocate));
      StepInv(s, Step(t, Allocate));
      var rest;
      rest, after := CandidateReturns(s1, t);
      own := [Allocate] + rest;
    case Candidate(_) => own, after := CandidateReturns(s, t);
    case Beaten(_, _) =>
      own, after := [Destroy], Apply(s, Step(t, Destroy));
      StepReturns(s, Step(t, Destroy));
  }

  /** `t` alone takes the steps `own`. */
  predicate Follows(s: State, t: Tid, own: seq<Op>, after: State)
    decreases |own|
  {
    if own == [] then s == after
    else Enabled(s, Step(t, own[0])) && Follows(Apply(s, Step(t, own[0])), t, own[1..], after)
  }

  lemma CandidateReturns(s: State, t: Tid) returns (own: seq<Op>, after: State)
    requires Inv(s) && t in s.callers && s.callers[t].Candidate?
    ensures |own| <= 2 && Follows(s, t, own, after)
    ensures t in after.callers && after.callers[t] == Idle && after.slot.Some?
    ensures |after.results| == |s.results| + 1 && after.results[|s.results|] == after.slot
    ensures s.slot.Some? ==> after.slot == s.slot
  {
    var step := Step(t, CompareExchange);
    var s1 := Apply(s, step);
    StepInv(s, step);
    StepReturns(s, step);
    if s.slot.Some? {
      after := Apply(s1, Step(t, Destroy));
      StepReturns(s1, Step(t, Destroy));
      own := [CompareExchange, Destroy];
      assert own[1..] == [Destroy] && own[1..][1..] == [];
    } else {
      own, after := [CompareExchange], s1;
      assert own[1..] == [];
    }
  }
}
