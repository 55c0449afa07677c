/**
 The waiter queue of a condition variable: a singly linked chain of nodes that
 live in the frames of sleeping threads. `chain` is the sequence it stands for.
*/
module CvQueue {
  import opened Sequences

  class Waiter {
    var next: Waiter?
    var queued: bool
    var event: bool

    constructor ()
      ensures next == null && queued && !event
    {
      next, queued, event := null, true, false;
    }
  }

  class CvState {
    var head: Waiter?
    var tail: Waiter?
    ghost var chain: seq<Waiter>

    ghost predicate Valid()
      reads this, chain
    {
      && Distinct(chain)
      && (chain == [] ==> head == null && tail == null)
      && (chain != [] ==> head == chain[0] && tail == chain[|chain| - 1] && chain[|chain| - 1].next == null)
      && (forall i {:trigger chain[i].next} :: 0 <= i < |chain| - 1 ==> chain[i].next == chain[i + 1])
      && (forall i :: 0 <= i < |chain| ==> chain[i].queued && !chain[i].event)
    }

    constructor ()
      ensures Valid() && chain == []
    {
      head, tail, chain := null, null, [];
    }

    /** What a sleeping thread does before it lets go of the caller's lock. */
    method Enqueue(w: Waiter)
      requires Valid() && w !in chain && w.next == null && w.queued && !w.event
      modifies this, chain
      ensures Valid() && chain == old(chain) + [w]
    {
      if tail != null { tail.next := w; } else { head := w; }
      tail := w;
      chain := chain + [w];
    }

    /** Unlinks `w` when it is in the chain; otherwise nothing at all changes. */
    method RemoveWaiter(w: Waiter)
      requires Valid()
      modifies this, chain
      ensures Valid() && chain == Without(old(chain), w)
      ensures w in old(chain) ==> !w.queued && w.next == null && w.event == old(w.event)
      ensures w !in old(chain) ==> head == old(head) && tail == old(tail)
      ensures w !in chain && forall v :: v in old(chain) && v != w ==> v in chain
      ensures w !in old(chain) ==> forall v :: v in old(chain) ==> v.next == old(v.next)
    {
      var current, previous: Waiter? := head, null;
      ghost var k := 0;
      while current != null
        invariant 0 <= k <= |chain|
        invariant current == if k < |chain| then chain[k] else null
        invariant previous == if k > 0 then chain[k - 1] else null
        invariant forall i :: 0 <= i < k ==> chain[i] != w
        decreases |chain| - k
      {
        if current == w {
          Unlink(current, previous, k);
          WithoutAt(old(chain), k);
          WithoutDistinct(old(chain), w);
          return;
        }
        previous := current;
        current := current.next;
        k := k + 1;
      }
    }

    /** The body of the walk once it has arrived at the node at index `k`. */
    method Unlink(current: Waiter, previous: Waiter?, ghost k: nat)
      requires Valid() && k < |chain| && current == chain[k]
      requires previous == if k > 0 then chain[k - 1] else null
      modifies this, chain
      ensures Valid() && chain == old(chain)[..k] + old(chain)[k + 1..]
      ensures !current.queued && current.next == null && current.event == old(current.event)
    {
      assert forall i :: 0 <= i < |chain| && i != k ==> chain[i] != current;
      if previous != null { previous.next := current.next; } else { head := current.next; }
      if tail == current { tail := previous; }
      current.next := null;
      current.queued := false;
      ghost var was := chain;
      chain := chain[..k] + chain[k + 1..];
      hide Distinct;
      assert forall i :: 0 <= i < |chain| ==> chain[i] == was[if i < k then i else i + 1];
    }

    /** Wakes the longest-queued waiter; with nobody queued the wake is lost. */
    method WakeOne() returns (woken: Waiter?)
      requires Valid()
      modifies this, chain
      ensures Valid()
      ensures woken == if old(chain) == [] then null else old(chain)[0]
      ensures chain == if old(chain) == [] then [] else old(chain)[1..]
      ensures woken != null ==> woken.event && !woken.queued && woken.next == null
    {
      hide Find, Without, Distinct;
      woken := head;
      if woken != null {
        WithoutAt(chain, 0);
        assert chain[..0] + chain[1..] == chain[1..];
        RemoveWaiter(woken);
        woken.event := true;
      }
    }

    /** Empties the queue and signals every waiter, first to last. */
    method WakeAll() returns (ghost order: seq<Waiter>)
      requires Valid()
      modifies this, chain
      ensures Valid() && chain == []
      ensures order == old(chain)
      ensures forall w :: w in old(chain) ==> w.event && !w.queued && w.next == null
    {
      hide Distinct;
      var waiter := head;
      ghost var all := chain;
      head, tail, chain := null, null, [];
      EmptyDistinct<Waiter>();
      order := [];
      ghost var k := 0;
      while waiter != null
        invariant head == null && tail == null && chain == [] && Distinct(chain)
        invariant 0 <= k <= |all| && order == all[..k]
        invariant waiter == if k < |all| then all[k] else null
        invariant forall i :: 0 <= i < k ==> all[i].event && !all[i].queued && all[i].next == null
        // Nodes still ahead are untouched, so the saved successor is still the successor.
        invariant forall i {:trigger all[i].next} :: k <= i < |all| - 1 ==> all[i].next == all[i + 1]
        invariant k < |all| ==> all[|all| - 1].next == null
        decreases |all| - k
      {
        OnlyAt(all, k);
        var next := waiter.next;
        waiter.next := null;
        waiter.queued := false;
        waiter.event := true;
        order := order + [waiter];
        waiter := next;
        k := k + 1;
      }
    }
  }
}
