/** Running any deterministic machine: some steps in a row, and runs that call out to an environment. */
module Stepping {
  import opened Sequences

  /** `n` steps in a row, if all of them are defined. */
  function Steps<C>(step: C -> Option<C>, c: C, n: nat): Option<C>
    decreases n
  {
    if n == 0 then Some(c)
    else
      match step(c)
      case None => None
      case Some(d) => Steps(step, d, n - 1)
  }

  lemma {:induction false} StepsJoin<C>(step: C -> Option<C>, c: C, n: nat, d: C, m: nat)
    requires Steps(step, c, n) == Some(d)
    ensures Steps(step, c, n + m) == Steps(step, d, m)
    decreases n
  {
    if n > 0 { StepsJoin(step, step(c).value, n - 1, d, m); }
  }

  lemma Two<C>(step: C -> Option<C>, c: C, c1: C, c2: C)
    requires step(c) == Some(c1) && step(c1) == Some(c2)
    ensures Steps(step, c, 2) == Some(c2)
  {
    assert Steps(step, c1, 1) == Steps(step, c2, 0);
  }

  lemma Three<C>(step: C -> Option<C>, c: C, c1: C, c2: C, c3: C)
    requires step(c) == Some(c1) && step(c1) == Some(c2) && step(c2) == Some(c3)
    ensures Steps(step, c, 3) == Some(c3)
  {
    Two(step, c1, c2, c3);
  }

  lemma Four<C>(step: C -> Option<C>, c: C, c1: C, c2: C, c3: C, c4: C)
    requires step(c) == Some(c1) && step(c1) == Some(c2) && step(c2) == Some(c3) && step(c3) == Some(c4)
    ensures Steps(step, c, 4) == Some(c4)
  {
    Three(step, c1, c2, c3, c4);
  }

  /** Where a run left for good, and the machine at each call it made on the way. */
  datatype Exit<C> = Exit(last: C, calls: seq<C>)

  /**
   Steps while it can; a state outside that is a call out is answered by `env`; any other state
   outside is the end. A state inside without a step is a fault, and there is no result.
  */
  function Run<C>(
    step: C -> Option<C>, outside: C -> bool, callsOut: C -> bool, env: C -> C, c: C, fuel: nat): Option<Exit<C>>
    decreases fuel
  {
    if fuel == 0 then None
    else if step(c).Some? then Run(step, outside, callsOut, env, step(c).value, fuel - 1)
    else if !outside(c) then None
    else if callsOut(c) then
      match Run(step, outside, callsOut, env, env(c), fuel - 1)
      case None => None
      case Some(e) => Some(Exit(e.last, [c] + e.calls))
    else Some(Exit(c, []))
  }

  lemma {:induction false} RunSteps<C>(step: C -> Option<C>, outside: C -> bool, callsOut: C -> bool, env: C -> C,
                                       c: C, n: nat, d: C, fuel: nat)
    requires Steps(step, c, n) == Some(d)
    ensures Run(step, outside, callsOut, env, c, n + fuel) == Run(step, outside, callsOut, env, d, fuel)
    decreases n
  {
    if n > 0 { RunSteps(step, outside, callsOut, env, step(c).value, n - 1, d, fuel); }
  }

  /** More fuel never changes a result. */
  lemma {:induction false} RunMonotone<C>(step: C -> Option<C>, outside: C -> bool, callsOut: C -> bool, env: C -> C,
                                          c: C, fuel: nat, more: nat)
    requires Run(step, outside, callsOut, env, c, fuel).Some? && fuel <= more
    ensures Run(step, outside, callsOut, env, c, more) == Run(step, outside, callsOut, env, c, fuel)
    decreases fuel
  {
    if step(c).Some? {
      RunMonotone(step, outside, callsOut, env, step(c).value, fuel - 1, more - 1);
    } else if outside(c) && callsOut(c) {
      RunMonotone(step, outside, callsOut, env, env(c), fuel - 1, more - 1);
    }
  }
}
