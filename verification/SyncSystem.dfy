/**
 Any number of threads sharing one reader/writer lock, one condition variable and
 one critical section. A step is one stay inside a `gate`, one return from a wait,
 or one node of the wake-all walk; steps of different threads interleave freely.
*/
module SyncSystem {
  import opened Sequences
  import opened SrwLock

  type Tid = nat

  /** The caller's lock that a sleep gives up and takes back. */
  datatype Guard = ByExclusive | ByShared | BySection

  datatype WaitResult = Signaled | Expired | Failed

  datatype Hold = Nothing | Shared | Exclusive

  /** Who asked for the lock: the program, or the tail of a sleep with its answer ready. */
  datatype Caller = Program | Sleeper(guard: Guard, signaled: bool)

  datatype Pc =
    | Ready
    | ParkedExclusive(who: Caller)   // left the gate, waiting for canWrite
    | WokenExclusive(who: Caller)    // the wait returned, about to re-enter the gate
    | ParkedShared(who: Caller)
    | WokenShared(who: Caller)
    | Enqueued(guard: Guard)         // linked as a waiter, caller's lock still held
    | Asleep(guard: Guard)           // caller's lock released, waiting for its own event
    | Roused(guard: Guard, result: WaitResult)
    | Reacquiring(guard: Guard, signaled: bool)
    | WakingAll                      // inside the condition variable's gate

  /** `ticket` names the waiter node in the thread's frame while it sleeps. */
  datatype Thread = Thread(pc: Pc, hold: Hold, ticket: nat)

  /** A waiter node; it exists exactly as long as the frame of its owner's sleep. */
  datatype Node = Node(owner: Tid, queued: bool, event: bool)

  datatype Gate = Open | Walking(waker: Tid, rest: seq<nat>)

  datatype State = State(
    lock: Lock,
    section: Option<Tid>,
    threads: map<Tid, Thread>,
    nodes: map<nat, Node>,
    queue: seq<nat>,
    gate: Gate,
    issued: nat,               // nodes made so far; each gets the next number
    signals: seq<nat>,         // nodes dequeued by a signaler, in order
    quits: seq<nat>,           // nodes dequeued by their own sleeper, in order
    answers: map<nat, bool>)   // what each finished sleep returned

  datatype LockOp =
    | AcquireExclusive | CanWriteSeen | RetryWrite | TryWrite | EndWrite
    | AcquireShared | CanReadSeen | RetryRead | TryRead | EndRead
    | EnterSection | LeaveSection

  datatype SleepOp =
    | Enqueue(guard: Guard) | Release | EventSeen | Expires(result: WaitResult)
    | Dequeue | Reacquire
    | Wake | WakeAllBegin | WakeAllNext | WakeAllEnd

  datatype Step = OnLock(t: Tid, op: LockOp) | OnCv(t: Tid, cv: SleepOp)

  predicate HasGuard(s: State, t: Tid, g: Guard)
    requires t in s.threads
  {
    match g
    case ByExclusive => s.threads[t].hold == Exclusive
    case ByShared => s.threads[t].hold == Shared
    case BySection => s.section == Some(t)
  }

  /** Reading a node whose frame is gone would give an arbitrary value; this is one. */
  function NodeAt(s: State, n: nat): Node {
    if n in s.nodes then s.nodes[n] else Node(0, false, false)
  }

  predicate CanDoLock(s: State, t: Tid, op: LockOp)
    requires t in s.threads
  {
    var me := s.threads[t];
    match op
    case AcquireExclusive => me.pc == Ready && me.hold == Nothing
    case TryWrite => me.pc == Ready && me.hold == Nothing
    case AcquireShared => me.pc == Ready && me.hold == Nothing
    case TryRead => me.pc == Ready && me.hold == Nothing
    case EndWrite => me.pc == Ready && me.hold == Exclusive
    case EndRead => me.pc == Ready && me.hold == Shared
    case CanWriteSeen => me.pc.ParkedExclusive? && s.lock.canWrite
    case CanReadSeen => me.pc.ParkedShared? && s.lock.canRead
    case RetryWrite => me.pc.WokenExclusive?
    case RetryRead => me.pc.WokenShared?
    case EnterSection => me.pc == Ready && s.section == None
    case LeaveSection => me.pc == Ready && s.section == Some(t)
  }

  predicate CanDoCv(s: State, t: Tid, op: SleepOp)
    requires t in s.threads
  {
    var me := s.threads[t];
    match op
    case Enqueue(g) => me.pc == Ready && HasGuard(s, t, g) && s.gate == Open
    case Release => me.pc.Enqueued?
    case EventSeen => me.pc.Asleep? && NodeAt(s, me.ticket).event
    case Expires(r) => me.pc.Asleep? && r != Signaled
    case Dequeue => me.pc.Roused? && s.gate == Open
    case Reacquire => me.pc.Reacquiring? && (me.pc.guard == BySection ==> s.section == None)
    case Wake => me.pc == Ready && s.gate == Open
    case WakeAllBegin => me.pc == Ready && s.gate == Open
    case WakeAllNext => me.pc == WakingAll && s.gate.Walking? && s.gate.waker == t && s.gate.rest != []
    case WakeAllEnd => me.pc == WakingAll && s.gate.Walking? && s.gate.waker == t && s.gate.rest == []
  }

  predicate Enabled(s: State, step: Step) {
    && step.t in s.threads
    && match step
       case OnLock(t, op) => CanDoLock(s, t, op)
       case OnCv(t, op) => CanDoCv(s, t, op)
  }

  function Put(s: State, t: Tid, me: Thread): State {
    s.(threads := s.threads[t := me])
  }

  function Goto(s: State, t: Tid, pc: Pc): State
    requires t in s.threads
  {
    Put(s, t, s.threads[t].(pc := pc))
  }

  function SetNode(s: State, n: nat, queued: bool, event: bool): State {
    s.(nodes := s.nodes[n := NodeAt(s, n).(queued := queued, event := event)])
  }

  /** The lock is granted: a program call returns; a sleep closes its event, answers and drops its frame. */
  function Granted(s: State, t: Tid, hold: Hold, who: Caller): State
    requires t in s.threads
  {
    var me := s.threads[t].(pc := Ready, hold := hold);
    match who
    case Program => Put(s, t, me)
    case Sleeper(_, signaled) =>
      Put(s, t, me).(nodes := s.nodes - {me.ticket}, answers := s.answers[me.ticket := signaled])
  }

  function AfterWriteAttempt(s: State, t: Tid, a: Attempt, who: Caller): State
    requires t in s.threads
  {
    var s1 := s.(lock := a.lock);
    if a.acquired then Granted(s1, t, Exclusive, who) else Goto(s1, t, ParkedExclusive(who))
  }

  function AfterReadAttempt(s: State, t: Tid, a: Attempt, who: Caller): State
    requires t in s.threads
  {
    var s1 := s.(lock := a.lock);
    if a.acquired then Granted(s1, t, Shared, who) else Goto(s1, t, ParkedShared(who))
  }

  /** A signaler dequeues node `n` and sets its event. */
  function Signal(s: State, n: nat): State {
    SetNode(s, n, false, true).(signals := s.signals + [n])
  }

  function DoRelease(s: State, t: Tid, g: Guard): State
    requires t in s.threads
  {
    var me := s.threads[t].(pc := Asleep(g));
    match g
    case ByExclusive => Put(s, t, me.(hold := Nothing)).(lock := ReleaseExclusive(s.lock))
    case ByShared => Put(s, t, me.(hold := Nothing)).(lock := ReleaseShared(s.lock))
    case BySection => Put(s, t, me).(section := None)
  }

  /** Back inside the gate after the wait: still queued means nobody signaled. */
  function DoDequeue(s: State, t: Tid, g: Guard, r: WaitResult): State
    requires t in s.threads
  {
    var me := s.threads[t];
    var node := NodeAt(s, me.ticket);
    if node.queued then
      SetNode(Put(s, t, me.(pc := Reacquiring(g, r == Signaled))), me.ticket, false, node.event)
        .(queue := Without(s.queue, me.ticket), quits := s.quits + [me.ticket])
    else
      Put(s, t, me.(pc := Reacquiring(g, true)))
  }

  function DoReacquire(s: State, t: Tid, g: Guard, signaled: bool): State
    requires t in s.threads
  {
    match g
    case ByExclusive => AfterWriteAttempt(s, t, EnterExclusive(s.lock), Sleeper(g, signaled))
    case ByShared => AfterReadAttempt(s, t, EnterShared(s.lock), Sleeper(g, signaled))
    case BySection => Granted(s, t, s.threads[t].hold, Sleeper(g, signaled)).(section := Some(t))
  }

  function DoLock(s: State, t: Tid, op: LockOp): State
    requires t in s.threads && CanDoLock(s, t, op)
  {
    var me := s.threads[t];
    match op
    case AcquireExclusive => AfterWriteAttempt(s, t, SrwLock.EnterExclusive(s.lock), Program)
    case RetryWrite => AfterWriteAttempt(s, t, RetryExclusive(s.lock), me.pc.who)
    case CanWriteSeen => Goto(s, t, WokenExclusive(me.pc.who))
    case TryWrite =>
      var a := TryExclusive(s.lock);
      if a.acquired then Granted(s.(lock := a.lock), t, Exclusive, Program) else s
    case EndWrite => Put(s, t, me.(hold := Nothing)).(lock := ReleaseExclusive(s.lock))
    case AcquireShared => AfterReadAttempt(s, t, EnterShared(s.lock), Program)
    case RetryRead => AfterReadAttempt(s, t, EnterShared(s.lock), me.pc.who)
    case CanReadSeen => Goto(s, t, WokenShared(me.pc.who))
    case TryRead =>
      var a := TryShared(s.lock);
      if a.acquired then Granted(s.(lock := a.lock), t, Shared, Program) else s
    case EndRead => Put(s, t, me.(hold := Nothing)).(lock := ReleaseShared(s.lock))
    case EnterSection => s.(section := Some(t))
    case LeaveSection => s.(section := None)
  }

  function DoCv(s: State, t: Tid, op: SleepOp): State
    requires t in s.threads && CanDoCv(s, t, op)
  {
    var me := s.threads[t];
    match op
    case Enqueue(g) =>
      Put(s, t, me.(pc := Enqueued(g), ticket := s.issued))
        .(nodes := s.nodes[s.issued := Node(t, true, false)], queue := s.queue + [s.issued], issued := s.issued + 1)
    case Release => DoRelease(s, t, me.pc.guard)
    case EventSeen =>
      SetNode(Put(s, t, me.(pc := Roused(me.pc.guard, Signaled))), me.ticket, NodeAt(s, me.ticket).queued, false)
    case Expires(r) => Goto(s, t, Roused(me.pc.guard, r))
    case Dequeue => DoDequeue(s, t, me.pc.guard, me.pc.result)
    case Reacquire => DoReacquire(s, t, me.pc.guard, me.pc.signaled)
    case Wake => if s.queue == [] then s else Signal(s, s.queue[0]).(queue := Without(s.queue, s.queue[0]))
    case WakeAllBegin => Goto(s, t, WakingAll).(gate := Walking(t, s.queue), queue := [])
    case WakeAllNext => Signal(s, s.gate.rest[0]).(gate := Walking(t, s.gate.rest[1..]))
    case WakeAllEnd => Goto(s, t, Ready).(gate := Open)
  }

  function Apply(s: State, step: Step): State
    requires Enabled(s, step)
  {
    match step
    case OnLock(t, op) => DoLock(s, t, op)
    case OnCv(t, op) => DoCv(s, t, op)
  }

  predicate Initial(s: State) {
    && s.lock == Fresh && s.section == None
    && (forall t :: t in s.threads ==> s.threads[t] == Thread(Ready, Nothing, 0))
    && s.nodes == map[] && s.queue == [] && s.gate == Open && s.issued == 0
    && s.signals == [] && s.quits == [] && s.answers == map[]
  }

  /** `states` is a run of the system under the schedule `steps`. */
  predicate Run(states: seq<State>, steps: seq<Step>) {
    && |states| == |steps| + 1
    && Initial(states[0])
    && forall i {:trigger steps[i]} :: 0 <= i < |steps| ==>
      Enabled(states[i], steps[i]) && states[i + 1] == Apply(states[i], steps[i])
  }
}
