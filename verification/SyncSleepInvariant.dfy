/** The sleep half of the inductive invariant: nodes, signals, quits and answers. */
module SyncSleepInvariant {
  import opened Sequences
  import opened SrwLock
  import opened SyncSystem

  /** How far a sleep has come, as far as its node is concerned. */
  datatype Stage = Out | Sleeping | Heard | Answered(signaled: bool)

  function StageOf(pc: Pc): Stage {
    match pc
    case Ready => Out
    case WakingAll => Out
    case Enqueued(_) => Sleeping
    case Asleep(_) => Sleeping
    case Roused(_, r) => if r == Signaled then Heard else Sleeping
    case Reacquiring(_, signaled) => Answered(signaled)
    case ParkedExclusive(w) => StageOfCaller(w)
    case WokenExclusive(w) => StageOfCaller(w)
    case ParkedShared(w) => StageOfCaller(w)
    case WokenShared(w) => StageOfCaller(w)
  }

  function StageOfCaller(who: Caller): Stage {
    match who
    case Program => Out
    case Sleeper(_, signaled) => Answered(signaled)
  }

  /** Nodes not yet dequeued: those a wake-all walk still has ahead, then the queue. */
  function Pending(s: State): seq<nat> {
    (if s.gate.Walking? then s.gate.rest else []) + s.queue
  }

  /** Signals so far, then the order in which the pending nodes would be signaled. */
  function Order(s: State): seq<nat> {
    s.signals + Pending(s)
  }

  /** A live node: its owner is the one thread in flight with it, and its flags tell who dequeued it. */
  predicate NodeOk(s: State, n: nat)
    requires n in s.nodes
  {
    var node := s.nodes[n];
    && n < s.issued && n !in s.answers
    && node.owner in s.threads && s.threads[node.owner].ticket == n
    && (node.queued <==> n in Pending(s))
    && match StageOf(s.threads[node.owner].pc)
       case Out => false
       case Sleeping => n !in s.quits && n in Order(s) && (node.event <==> n in s.signals)
       case Heard => n !in s.quits && n in s.signals && !node.event
       case Answered(signaled) => if signaled then n in s.signals else n in s.quits
  }

  predicate NodesOk(s: State) {
    forall n :: n in s.nodes ==> NodeOk(s, n)
  }

  /** A sleep in flight has its node. */
  predicate FramesOk(s: State) {
    forall t :: t in s.threads && StageOf(s.threads[t].pc) != Out ==>
      s.threads[t].ticket in s.nodes && s.nodes[s.threads[t].ticket].owner == t
  }

  predicate GateOk(s: State) {
    && (s.gate.Walking? ==> s.queue == [] && s.gate.waker in s.threads && s.threads[s.gate.waker].pc == WakingAll)
    && (forall t :: t in s.threads && s.threads[t].pc == WakingAll ==> s.gate.Walking? && s.gate.waker == t)
  }

  /** Nodes leave the queue once, in the order they joined it, or by their own quitting. */
  ghost predicate HistoryOk(s: State) {
    && Increasing(Order(s))
    && (forall i :: 0 <= i < |Order(s)| ==> Order(s)[i] < s.issued)
    && Distinct(s.quits)
    && (forall i :: 0 <= i < |s.quits| ==> s.quits[i] < s.issued && s.quits[i] !in Order(s))
    && (forall n :: n in Pending(s) ==> n in s.nodes)
  }

  /** Every node ever made is still live or has been answered, truthfully. */
  predicate AnswersOk(s: State) {
    && (forall n: nat :: n < s.issued ==> (n in s.answers <==> n !in s.nodes))
    && (forall n :: n in s.answers ==> n < s.issued && if s.answers[n] then n in s.signals else n in s.quits)
  }

  ghost predicate SleepInv(s: State) {
    NodesOk(s) && FramesOk(s) && GateOk(s) && HistoryOk(s) && AnswersOk(s)
  }

  /** Nothing about sleeps changed: thread `t` moved within its stage. */
  predicate SameSleep(s: State, s': State, t: Tid) {
    && t in s.threads && t in s'.threads && s'.threads == s.threads[t := s'.threads[t]]
    && StageOf(s'.threads[t].pc) == StageOf(s.threads[t].pc)
    && (s'.threads[t].pc == WakingAll <==> s.threads[t].pc == WakingAll)
    && s'.threads[t].ticket == s.threads[t].ticket
    && s'.nodes == s.nodes && s'.queue == s.queue && s'.gate == s.gate && s'.issued == s.issued
    && s'.signals == s.signals && s'.quits == s.quits && s'.answers == s.answers
  }

  lemma SameSleepKeeps(s: State, s': State, t: Tid)
    requires SleepInv(s) && SameSleep(s, s', t)
    ensures SleepInv(s')
  {
    assert Pending(s') == Pending(s) && Order(s') == Order(s);
    forall n | n in s'.nodes ensures NodeOk(s', n) { assert NodeOk(s, n); }
  }

  /** Nothing moved across the border: the histories and the set of live nodes are as they were. */
  predicate SameHistory(s: State, s': State) {
    && Pending(s') == Pending(s) && s'.signals == s.signals && s'.quits == s.quits
    && s'.issued == s.issued && s'.answers == s.answers && s'.nodes.Keys == s.nodes.Keys
  }

  lemma SameHistoryKeeps(s: State, s': State)
    requires HistoryOk(s) && AnswersOk(s) && SameHistory(s, s')
    ensures HistoryOk(s') && AnswersOk(s') && Order(s') == Order(s)
  {
    hide Pending, Increasing;
  }

  /** A thread that sleeps on moves from one stage to the next, and its node with it. */
  lemma MoveKeeps(s: State, s': State, t: Tid)
    requires SleepInv(s) && SameHistory(s, s') && s'.gate == s.gate && s'.queue == s.queue
    requires t in s.threads && StageOf(s.threads[t].pc) != Out && t in s'.threads
    requires s'.threads == s.threads[t := s'.threads[t]] && s'.threads[t].ticket == s.threads[t].ticket
    requires StageOf(s'.threads[t].pc) != Out
    requires s.threads[t].ticket in s.nodes && s.threads[t].ticket in s'.nodes && NodeOk(s', s.threads[t].ticket)
    requires s'.nodes == s.nodes[s.threads[t].ticket := s'.nodes[s.threads[t].ticket]]
    requires s'.nodes[s.threads[t].ticket].owner == s.nodes[s.threads[t].ticket].owner
    ensures SleepInv(s')
  {
    hide Pending, Order, HistoryOk, AnswersOk, NodeOk, FramesOk;
    SameHistoryKeeps(s, s');
    MoveKeepsFrames(s, s', t);
    forall m | m in s'.nodes ensures NodeOk(s', m) {
      if m != s.threads[t].ticket { OtherNodeKeeps(s, s', t, m); }
    }
  }

  lemma MoveKeepsFrames(s: State, s': State, t: Tid)
    requires FramesOk(s) && t in s.threads && StageOf(s.threads[t].pc) != Out && t in s'.threads
    requires s'.threads == s.threads[t := s'.threads[t]] && s'.threads[t].ticket == s.threads[t].ticket
    requires s.threads[t].ticket in s.nodes && s.threads[t].ticket in s'.nodes
    requires s'.nodes == s.nodes[s.threads[t].ticket := s'.nodes[s.threads[t].ticket]]
    requires s'.nodes[s.threads[t].ticket].owner == s.nodes[s.threads[t].ticket].owner
    ensures FramesOk(s')
  {
  }

  /** The node of a thread that did not move. */
  lemma OtherNodeKeeps(s: State, s': State, t: Tid, m: nat)
    requires SameHistory(s, s') && t in s.threads && t in s'.threads && m in s.nodes && NodeOk(s, m) && m in s'.nodes
    requires s'.threads == s.threads[t := s'.threads[t]] && s'.nodes[m] == s.nodes[m] && m != s.threads[t].ticket
    ensures NodeOk(s', m)
  {
    hide Pending;
  }

  /** What is before the border of an increasing order is not behind it. */
  lemma Apart(a: seq<nat>, b: seq<nat>, n: nat)
    requires Increasing(a + b) && n in a
    ensures n !in b
  {
    var i :| 0 <= i < |a| && a[i] == n;
    assert (a + b)[i] == n;
    forall j | 0 <= j < |b| ensures b[j] != n { assert (a + b)[|a| + j] == b[j]; }
  }

  lemma EnqueueKeepsHistory(s: State, s': State)
    requires HistoryOk(s) && AnswersOk(s) && s.issued !in s.nodes
    requires s'.queue == s.queue + [s.issued] && s'.gate == s.gate && s'.issued == s.issued + 1
    requires s'.signals == s.signals && s'.quits == s.quits && s'.answers == s.answers
    requires s'.nodes.Keys == s.nodes.Keys + {s.issued}
    ensures Pending(s') == Pending(s) + [s.issued] && Order(s') == Order(s) + [s.issued]
    ensures s.issued !in Order(s) && s.issued !in s.quits && s.issued !in s.signals
    ensures HistoryOk(s') && AnswersOk(s')
  {
    assert Pending(s') == Pending(s) + [s.issued];
    assert Order(s') == Order(s) + [s.issued];
    assert s.issued in s.signals ==> s.issued in Order(s);
  }

  lemma EnqueueKeepsNodes(s: State, s': State, t: Tid)
    requires NodesOk(s) && FramesOk(s) && t in s.threads && StageOf(s.threads[t].pc) == Out && t in s'.threads
    requires s'.threads == s.threads[t := s'.threads[t]] && s'.threads[t].ticket == s.issued
    requires StageOf(s'.threads[t].pc) == Sleeping && s'.nodes == s.nodes[s.issued := Node(t, true, false)]
    requires s'.issued == s.issued + 1 && s'.signals == s.signals && s'.quits == s.quits && s'.answers == s.answers
    requires Pending(s') == Pending(s) + [s.issued] && Order(s') == Order(s) + [s.issued]
    requires s.issued !in s.quits && s.issued !in s.signals && s.issued !in s.answers && s.issued !in s.nodes
    ensures NodesOk(s') && FramesOk(s')
  {
    hide Pending, Order;
    forall n | n in s'.nodes ensures NodeOk(s', n) {
      if n != s.issued { assert NodeOk(s, n); }
    }
  }

  lemma EnqueueKeeps(s: State, t: Tid, g: Guard)
    requires SleepInv(s) && t in s.threads && CanDoCv(s, t, Enqueue(g))
    ensures SleepInv(DoCv(s, t, Enqueue(g)))
  {
    var s' := DoCv(s, t, Enqueue(g));
    forall n | n in s.nodes ensures n < s.issued { assert NodeOk(s, n); }
    EnqueueKeepsHistory(s, s');
    EnqueueKeepsNodes(s, s', t);
  }

  lemma EventSeenKeeps(s: State, t: Tid)
    requires SleepInv(s) && t in s.threads && CanDoCv(s, t, EventSeen)
    ensures SleepInv(DoCv(s, t, EventSeen))
  {
    hide HistoryOk, AnswersOk, GateOk;
    var s', n := DoCv(s, t, EventSeen), s.threads[t].ticket;
    assert NodeOk(s, n);
    assert Pending(s') == Pending(s) && Order(s') == Order(s);
    MoveKeeps(s, s', t);
  }

  lemma IncreasingPunched(a: seq<nat>, c: nat)
    requires Increasing(a) && c < |a|
    ensures Increasing(a[..c] + a[c + 1..]) && a[c] !in a[..c] + a[c + 1..]
  {
    var r := a[..c] + a[c + 1..];
    assert forall i :: 0 <= i < |r| ==> r[i] == a[if i < c then i else i + 1];
  }

  lemma IncreasingTail(a: seq<nat>, p: seq<nat>)
    requires Increasing(a + p)
    ensures Distinct(p)
  {
    forall i, j | 0 <= i < j < |p| ensures p[i] != p[j] {
      assert (a + p)[|a| + i] == p[i] && (a + p)[|a| + j] == p[j];
    }
  }

  /** Taking one number out of an increasing list leaves an increasing list without it. */
  lemma IncreasingWithout(a: seq<nat>, p: seq<nat>, n: nat)
    requires Increasing(a + p) && n in p
    ensures Increasing(a + Without(p, n))
    ensures n !in a + Without(p, n)
    ensures forall m :: m != n ==> (m in p <==> m in Without(p, n))
  {
    hide Without, Increasing;
    var k := Find(p, n, 0);
    var c := |a| + k;
    IncreasingTail(a, p);
    WithoutAt(p, k);
    WithoutDistinct(p, n);
    IncreasingPunched(a + p, c);
    assert (a + p)[..c] + (a + p)[c + 1..] == a + Without(p, n);
    assert (a + p)[c] == n;
  }

  /** A sleeper that nobody signaled takes its own node out of the middle of the queue. */
  lemma QuitKeepsHistory(s: State, s': State, n: nat)
    requires HistoryOk(s) && s.gate == Open && n in s.queue
    requires s'.queue == Without(s.queue, n) && s'.quits == s.quits + [n] && s'.nodes.Keys == s.nodes.Keys
    requires s'.gate == s.gate && s'.issued == s.issued && s'.signals == s.signals
    ensures HistoryOk(s')
    ensures n !in Order(s') && forall m :: m != n ==>
      (m in Order(s) <==> m in Order(s')) && (m in Pending(s) <==> m in Pending(s'))
  {
    hide Without, Increasing;
    QuitMoves(s, s', n);
    assert Order(s)[|s.signals| + Find(s.queue, n, 0)] == n;
    hide Order;
    assert forall i :: 0 <= i < |Order(s')| ==> Order(s')[i] in Order(s');
  }

  lemma QuitMoves(s: State, s': State, n: nat)
    requires Increasing(Order(s)) && s.gate == Open && n in s.queue
    requires s'.queue == Without(s.queue, n) && s'.gate == s.gate && s'.signals == s.signals
    ensures Increasing(Order(s'))
    ensures n !in Order(s') && forall m :: m != n ==>
      (m in Order(s) <==> m in Order(s')) && (m in Pending(s) <==> m in Pending(s'))
  {
    hide Without, Increasing;
    assert Pending(s) == s.queue && Pending(s') == s'.queue;
    IncreasingWithout(s.signals, s.queue, n);
  }

  lemma QuitKeepsNodes(s: State, s': State, t: Tid, n: nat)
    requires NodesOk(s) && t in s.threads && t in s'.threads && n == s.threads[t].ticket && n in s.nodes
    requires StageOf(s.threads[t].pc) == Sleeping && s.nodes[n].owner == t
    requires s'.threads == s.threads[t := s'.threads[t]]
    requires s'.threads[t].ticket == n && StageOf(s'.threads[t].pc) == Answered(false)
    requires s'.nodes == s.nodes[n := s.nodes[n].(queued := false)] && s'.quits == s.quits + [n]
    requires s'.issued == s.issued && s'.signals == s.signals && s'.answers == s.answers && n !in Order(s')
    requires forall m :: m != n ==> (m in Order(s) <==> m in Order(s')) && (m in Pending(s) <==> m in Pending(s'))
    ensures NodesOk(s')
  {
    assert n !in Pending(s');
    hide Order, Pending;
    forall m | m in s'.nodes ensures NodeOk(s', m) { assert NodeOk(s, m); }
  }

  lemma QuitKeeps(s: State, s': State, t: Tid)
    requires SleepInv(s) && s.gate == Open && t in s.threads && s.threads[t].ticket in s.queue
    requires StageOf(s.threads[t].pc) == Sleeping && s.threads[t].ticket in s.nodes
    requires t in s'.threads && s'.threads == s.threads[t := s'.threads[t]]
    requires s'.threads[t].ticket == s.threads[t].ticket && StageOf(s'.threads[t].pc) == Answered(false)
    requires s'.threads[t].pc != WakingAll
    requires s'.nodes == s.nodes[s.threads[t].ticket := s.nodes[s.threads[t].ticket].(queued := false)]
    requires s'.queue == Without(s.queue, s.threads[t].ticket) && s'.quits == s.quits + [s.threads[t].ticket]
    requires s'.gate == s.gate && s'.issued == s.issued && s'.signals == s.signals && s'.answers == s.answers
    ensures SleepInv(s')
  {
    hide Order, Pending, NodesOk, HistoryOk;
    QuitKeepsHistory(s, s', s.threads[t].ticket);
    QuitKeepsNodes(s, s', t, s.threads[t].ticket);
  }

  lemma DequeuedKeeps(s: State, t: Tid)
    requires SleepInv(s) && t in s.threads && CanDoCv(s, t, Dequeue)
    requires !NodeAt(s, s.threads[t].ticket).queued
    ensures SleepInv(DoCv(s, t, Dequeue))
  {
    hide HistoryOk, AnswersOk, GateOk, Without;
    var s', n := DoCv(s, t, Dequeue), s.threads[t].ticket;
    assert NodeOk(s, n);
    assert Pending(s') == Pending(s) && Order(s') == Order(s);
    MoveKeeps(s, s', t);
  }

  lemma AnswerKeepsNodes(s: State, s': State, t: Tid, signaled: bool)
    requires NodesOk(s) && AnswerGiven(s, s', t, signaled)
    requires s.threads[t].ticket in s.nodes && s.nodes[s.threads[t].ticket].owner == t
    ensures NodesOk(s')
  {
    assert Pending(s') == Pending(s) && Order(s') == Order(s);
    hide Order, Pending;
    forall m | m in s'.nodes ensures NodeOk(s', m) { assert NodeOk(s, m); }
  }

  lemma AnswerKeepsHistory(s: State, s': State, n: nat)
    requires HistoryOk(s) && n !in Pending(s)
    requires s'.queue == s.queue && s'.gate == s.gate && s'.issued == s.issued && s'.signals == s.signals
    requires s'.quits == s.quits && s'.nodes == s.nodes - {n}
    ensures HistoryOk(s')
  {
    assert Pending(s') == Pending(s) && Order(s') == Order(s);
  }

  /** The sleep returns: its frame dies and its answer is on record. */
  lemma AnswerKeeps(s: State, s': State, t: Tid, signaled: bool)
    requires SleepInv(s) && t in s.threads && StageOf(s.threads[t].pc) == Answered(signaled)
    requires AnswerGiven(s, s', t, signaled)
    ensures SleepInv(s')
  {
    var n := s.threads[t].ticket;
    assert NodeOk(s, n);
    if n in Pending(s) { PendingNotSignaled(s, n); }
    AnswerKeepsNodes(s, s', t, signaled);
    AnswerKeepsHistory(s, s', n);
  }

  /** Signaling the first pending node moves it across the border and leaves the whole order as it was. */
  lemma SignalKeepsHistory(s: State, s': State)
    requires HistoryOk(s) && Pending(s) != [] && Pending(s') == Pending(s)[1..]
    requires s'.signals == s.signals + [Pending(s)[0]] && s'.issued == s.issued && s'.quits == s.quits
    requires s'.nodes.Keys == s.nodes.Keys
    ensures HistoryOk(s') && Order(s') == Order(s)
    ensures Pending(s)[0] !in Pending(s') && Pending(s)[0] !in s.signals && Pending(s)[0] in s.nodes
  {
    var n := Pending(s)[0];
    assert Pending(s) == [n] + Pending(s');
    assert Order(s') == Order(s);
    Apart(s'.signals, Pending(s'), n);
    assert n !in s.signals by { if n in s.signals { Apart(s.signals, Pending(s), n); } }
  }

  lemma SignalKeeps(s: State, s': State)
    requires SleepInv(s) && Pending(s) != []
    requires s' == Signal(s, Pending(s)[0]).(queue := s'.queue, gate := s'.gate)
    requires Pending(s') == Pending(s)[1..] && GateOk(s')
    ensures SleepInv(s')
  {
    var n := Pending(s)[0];
    assert n in Pending(s);
    SignalKeepsHistory(s, s');
    assert forall m :: m != n ==> (m in Pending(s) <==> m in Pending(s'));
    forall m | m in s'.nodes ensures NodeOk(s', m) { assert NodeOk(s, m); }
  }

  lemma WakeKeeps(s: State, t: Tid)
    requires SleepInv(s) && t in s.threads && CanDoCv(s, t, Wake)
    ensures SleepInv(DoCv(s, t, Wake))
  {
    if s.queue != [] {
      assert Find(s.queue, s.queue[0], 0) == 0;
      assert s.queue[..0] + s.queue[1..] == s.queue[1..];
      assert Pending(s) == s.queue;
      SignalKeeps(s, DoCv(s, t, Wake));
    }
  }

  /** A thread outside any sleep moved, and left the nodes and their order alone. */
  lemma IdleMoveKeeps(s: State, s': State, t: Tid)
    requires NodesOk(s) && FramesOk(s) && HistoryOk(s) && AnswersOk(s) && SameHistory(s, s') && s'.nodes == s.nodes
    requires t in s.threads && StageOf(s.threads[t].pc) == Out && t in s'.threads && StageOf(s'.threads[t].pc) == Out
    requires s'.threads == s.threads[t := s'.threads[t]]
    ensures NodesOk(s') && FramesOk(s') && HistoryOk(s') && AnswersOk(s')
  {
    SameHistoryKeeps(s, s');
    hide Pending, Order;
    forall m | m in s'.nodes ensures NodeOk(s', m) { assert NodeOk(s, m); }
  }

  lemma WalkBeginKeeps(s: State, t: Tid)
    requires SleepInv(s) && t in s.threads && CanDoCv(s, t, WakeAllBegin)
    ensures SleepInv(DoCv(s, t, WakeAllBegin))
  {
    hide NodesOk, FramesOk, HistoryOk, AnswersOk;
    var s' := DoCv(s, t, WakeAllBegin);
    assert Pending(s') == Pending(s);
    IdleMoveKeeps(s, s', t);
  }

  lemma WalkNextKeeps(s: State, t: Tid)
    requires SleepInv(s) && t in s.threads && CanDoCv(s, t, WakeAllNext)
    ensures SleepInv(DoCv(s, t, WakeAllNext))
  {
    assert Pending(s) == s.gate.rest;
    SignalKeeps(s, DoCv(s, t, WakeAllNext));
  }

  lemma WalkEndKeeps(s: State, t: Tid)
    requires SleepInv(s) && t in s.threads && CanDoCv(s, t, WakeAllEnd)
    ensures SleepInv(DoCv(s, t, WakeAllEnd))
  {
    hide NodesOk, FramesOk, HistoryOk, AnswersOk;
    var s' := DoCv(s, t, WakeAllEnd);
    assert Pending(s') == Pending(s);
    IdleMoveKeeps(s, s', t);
  }

  /** The sleep of thread `t` has ended with this answer, and nothing else about sleeps has changed. */
  predicate AnswerGiven(s: State, s': State, t: Tid, signaled: bool) {
    && t in s.threads && t in s'.threads && s'.threads == s.threads[t := s'.threads[t]] && s'.threads[t].pc == Ready
    && s'.nodes == s.nodes - {s.threads[t].ticket} && s'.answers == s.answers[s.threads[t].ticket := signaled]
    && s'.queue == s.queue && s'.gate == s.gate && s'.issued == s.issued && s'.signals == s.signals
      && s'.quits == s.quits
  }

  /** An attempt at the lock ends the sleep it was made for, or changes no sleep. */
  predicate AttemptSleeps(s: State, s': State, t: Tid, who: Caller) {
    t in s'.threads && if s'.threads[t].pc == Ready && who.Sleeper? then AnswerGiven(s, s', t, who.signaled)
      else SameSleep(s, s', t)
  }

  lemma GrantSleeps(s: State, t: Tid, hold: Hold, who: Caller, lock: Lock)
    requires t in s.threads && StageOf(s.threads[t].pc) == StageOfCaller(who) && s.threads[t].pc != WakingAll
    ensures AttemptSleeps(s, Granted(s.(lock := lock), t, hold, who), t, who)
  {
  }

  lemma ParkSleeps(s: State, t: Tid, pc: Pc, who: Caller, lock: Lock)
    requires t in s.threads && StageOf(s.threads[t].pc) == StageOfCaller(who) && s.threads[t].pc != WakingAll
    requires pc == ParkedExclusive(who) || pc == ParkedShared(who)
    ensures AttemptSleeps(s, Goto(s.(lock := lock), t, pc), t, who)
  {
  }

  lemma WriteAttemptSleeps(s: State, t: Tid, a: Attempt, who: Caller)
    requires t in s.threads && StageOf(s.threads[t].pc) == StageOfCaller(who) && s.threads[t].pc != WakingAll
    ensures AttemptSleeps(s, AfterWriteAttempt(s, t, a, who), t, who)
  {
    hide AttemptSleeps, Granted, Goto;
    GrantSleeps(s, t, Exclusive, who, a.lock);
    ParkSleeps(s, t, ParkedExclusive(who), who, a.lock);
  }

  lemma ReadAttemptSleeps(s: State, t: Tid, a: Attempt, who: Caller)
    requires t in s.threads && StageOf(s.threads[t].pc) == StageOfCaller(who) && s.threads[t].pc != WakingAll
    ensures AttemptSleeps(s, AfterReadAttempt(s, t, a, who), t, who)
  {
    hide AttemptSleeps, Granted, Goto;
    GrantSleeps(s, t, Shared, who, a.lock);
    ParkSleeps(s, t, ParkedShared(who), who, a.lock);
  }

  /** For whom thread `t` is waiting for the lock, if it is. */
  function Attempting(s: State, t: Tid): Caller
    requires t in s.threads
  {
    var pc := s.threads[t].pc;
    if pc.ParkedExclusive? || pc.WokenExclusive? || pc.ParkedShared? || pc.WokenShared? then pc.who else Program
  }

  /** A lock step either ends a sleep that was only waiting for its lock, or changes no sleep. */
  lemma LockOpSleeps(s: State, t: Tid, op: LockOp)
    requires t in s.threads && CanDoLock(s, t, op)
    ensures AttemptSleeps(s, DoLock(s, t, op), t, Attempting(s, t))
  {
    hide AfterWriteAttempt, AfterReadAttempt;
    hide RetryExclusive, EnterExclusive, TryExclusive, ReleaseExclusive, EnterShared, TryShared, ReleaseShared;
    if op.AcquireExclusive? {
      WriteAttemptSleeps(s, t, EnterExclusive(s.lock), Program);
    } else if op.RetryWrite? {
      WriteAttemptSleeps(s, t, RetryExclusive(s.lock), s.threads[t].pc.who);
    } else if op.AcquireShared? {
      ReadAttemptSleeps(s, t, EnterShared(s.lock), Program);
    } else if op.RetryRead? {
      ReadAttemptSleeps(s, t, EnterShared(s.lock), s.threads[t].pc.who);
    }
  }

  lemma AttemptKeeps(s: State, s': State, t: Tid, who: Caller)
    requires SleepInv(s) && t in s.threads && StageOf(s.threads[t].pc) == StageOfCaller(who)
      && AttemptSleeps(s, s', t, who)
    ensures SleepInv(s')
  {
    hide SleepInv, SameSleep;
    if s'.threads[t].pc == Ready && who.Sleeper? {
      AnswerKeeps(s, s', t, who.signaled);
    } else {
      SameSleepKeeps(s, s', t);
    }
  }

  lemma SleepLockStep(s: State, t: Tid, op: LockOp)
    requires SleepInv(s) && t in s.threads && CanDoLock(s, t, op)
    ensures SleepInv(DoLock(s, t, op))
  {
    hide SleepInv, DoLock, AttemptSleeps;
    LockOpSleeps(s, t, op);
    AttemptKeeps(s, DoLock(s, t, op), t, Attempting(s, t));
  }

  lemma ReleaseKeeps(s: State, t: Tid)
    requires SleepInv(s) && t in s.threads && CanDoCv(s, t, Release)
    ensures SleepInv(DoCv(s, t, Release))
  {
    hide SleepInv, ReleaseExclusive, ReleaseShared;
    SameSleepKeeps(s, DoCv(s, t, Release), t);
  }

  lemma ExpiresKeeps(s: State, t: Tid, r: WaitResult)
    requires SleepInv(s) && t in s.threads && CanDoCv(s, t, Expires(r))
    ensures SleepInv(DoCv(s, t, Expires(r)))
  {
    hide SleepInv;
    SameSleepKeeps(s, DoCv(s, t, Expires(r)), t);
  }

  lemma PendingNotSignaled(s: State, n: nat)
    requires HistoryOk(s) && n in Pending(s)
    ensures n !in s.signals
  {
    if n in s.signals { Apart(s.signals, Pending(s), n); }
  }

  lemma DequeueKeeps(s: State, t: Tid)
    requires SleepInv(s) && t in s.threads && CanDoCv(s, t, Dequeue)
    ensures SleepInv(DoCv(s, t, Dequeue))
  {
    if NodeAt(s, s.threads[t].ticket).queued {
      OwnNodeQueued(s, t);
      hide Without, SleepInv;
      QuitKeeps(s, DoCv(s, t, Dequeue), t);
    } else {
      DequeuedKeeps(s, t);
    }
  }

  lemma OwnNodeQueued(s: State, t: Tid)
    requires SleepInv(s) && t in s.threads && s.threads[t].pc.Roused? && s.gate == Open
    requires NodeAt(s, s.threads[t].ticket).queued
    ensures s.threads[t].ticket in s.nodes && s.threads[t].ticket in s.queue && s.threads[t].pc.result != Signaled
  {
    var n := s.threads[t].ticket;
    assert NodeOk(s, n);
    PendingNotSignaled(s, n);
    assert Pending(s) == s.queue;
  }

  lemma ReacquireSleeps(s: State, t: Tid)
    requires t in s.threads && CanDoCv(s, t, Reacquire)
    ensures
      var me := s.threads[t].pc;
      AttemptSleeps(s, DoCv(s, t, Reacquire), t, Sleeper(me.guard, me.signaled))
  {
    hide AfterWriteAttempt, AfterReadAttempt, EnterExclusive, EnterShared;
    var who := Sleeper(s.threads[t].pc.guard, s.threads[t].pc.signaled);
    WriteAttemptSleeps(s, t, EnterExclusive(s.lock), who);
    ReadAttemptSleeps(s, t, EnterShared(s.lock), who);
  }

  lemma ReacquireKeeps(s: State, t: Tid)
    requires SleepInv(s) && t in s.threads && CanDoCv(s, t, Reacquire)
    ensures SleepInv(DoCv(s, t, Reacquire))
  {
    hide SleepInv, DoCv, AttemptSleeps;
    ReacquireSleeps(s, t);
    AttemptKeeps(s, DoCv(s, t, Reacquire), t, Sleeper(s.threads[t].pc.guard, s.threads[t].pc.signaled));
  }

  /** Every step of every thread keeps the sleep invariant. */
  lemma SleepStep(s: State, step: Step)
    requires SleepInv(s) && Enabled(s, step)
    ensures SleepInv(Apply(s, step))
  {
    match step
    case OnLock(t, op) => SleepLockStep(s, t, op);
    case OnCv(t, op) =>
      match op
      case Enqueue(g) => EnqueueKeeps(s, t, g);
      case Release => ReleaseKeeps(s, t);
      case EventSeen => EventSeenKeeps(s, t);
      case Expires(r) => ExpiresKeeps(s, t, r);
      case Dequeue => DequeueKeeps(s, t);
      case Reacquire => ReacquireKeeps(s, t);
      case Wake => WakeKeeps(s, t);
      case WakeAllBegin => WalkBeginKeeps(s, t);
      case WakeAllNext => WalkNextKeeps(s, t);
      case WakeAllEnd => WalkEndKeeps(s, t);
  }
}
