/**
 The vectored-handler list in memory: a ring of entries closed by a sentinel, with
 registration, removal and dispatch. `entries` is the sequence the ring stands for.
*/
module VehList {
  import opened Sequences

  type Handler = nat

  datatype Disposition = ContinueSearch | ContinueExecution

  /** What a handler does when called: its answer, and whether it unregisters itself first. */
  datatype Behaviour = Behaviour(disposition: Disposition, removesItself: bool)

  class Entry {
    var flink: Entry
    var blink: Entry
    var handler: Handler
    var references: int
    var deleted: bool

    constructor (handler: Handler)
      ensures this.handler == handler && references == 1 && !deleted
      ensures flink == this && blink == this
    {
      this.handler, references, deleted := handler, 1, false;
      flink, blink := this, this;
    }
  }

  /** The value of one entry at one moment. */
  datatype Item = Item(entry: Entry, handler: Handler, references: int, deleted: bool)

  /** What a whole dispatch does: who is called, the answer, the list it leaves, the entries it frees. */
  datatype Outcome = Outcome(calls: seq<Entry>, handled: bool, left: seq<Item>, freed: seq<Entry>)

  /** One call: the count goes up and down around it, and self-removal takes the registration's share. */
  function AfterCall(item: Item, b: Behaviour): Item {
    if b.removesItself then item.(references := item.references - 1, deleted := true) else item
  }

  ghost function Dispatched(items: seq<Item>, behave: Handler -> Behaviour): Outcome {
    if items == [] then
      Outcome([], false, [], [])
    else if items[0].deleted then
      var rest := Dispatched(items[1..], behave);
      rest.(left := [items[0]] + rest.left)
    else
      var b := behave(items[0].handler);
      var after := AfterCall(items[0], b);
      var rest := if b.disposition == ContinueExecution then Outcome([], true, items[1..], [])
        else Dispatched(items[1..], behave);
      if after.references == 0 then
        Outcome([items[0].entry] + rest.calls, rest.handled, rest.left, [after.entry] + rest.freed)
      else
        Outcome([items[0].entry] + rest.calls, rest.handled, [after] + rest.left, rest.freed)
  }

  /** A dispatch that has already done some of its work. */
  ghost function Continued(calls: seq<Entry>, kept: seq<Item>, freed: seq<Entry>, rest: Outcome): Outcome {
    Outcome(calls + rest.calls, rest.handled, kept + rest.left, freed + rest.freed)
  }

  /** The items once the registration at `k` has given up its share. */
  function Unregistered(items: seq<Item>, k: nat): seq<Item>
    requires k < |items|
  {
    if items[k].references == 1 then items[..k] + items[k + 1..]
    else items[k := items[k].(references := items[k].references - 1, deleted := true)]
  }

  /** The items once the call of the entry at `k` has given up its share. */
  function Settled(items: seq<Item>, k: nat): seq<Item>
    requires k < |items|
  {
    var after := items[k].(references := items[k].references - 1);
    items[..k] + (if after.references == 0 then [] else [after]) + items[k + 1..]
  }

  lemma SettledIs(items: seq<Item>, k: nat)
    requires k < |items|
    ensures
      var after := items[k].(references := items[k].references - 1);
      var changed := items[k := after];
      Settled(items, k) == if after.references == 0 then changed[..k] + changed[k + 1..] else changed
  {
  }

  class HandlerList {
    const head: Entry
    ghost var entries: seq<Entry>

    ghost function Ring(): seq<Entry>
      reads this
    {
      [head] + entries + [head]
    }

    ghost function Nodes(): set<Entry>
      reads this
    {
      {head} + Elements(entries)
    }

    ghost predicate Linked()
      reads this, head`flink, head`blink, entries`flink, entries`blink
    {
      && Distinct(entries) && head !in entries
      && (forall i {:trigger Ring()[i].flink} :: 0 <= i < |Ring()| - 1 ==> Ring()[i].flink == Ring()[i + 1])
      && (forall i {:trigger Ring()[i].blink} :: 0 < i < |Ring()| ==> Ring()[i].blink == Ring()[i - 1])
    }

    ghost predicate Valid()
      reads this, head, entries
    {
      Linked() && forall e :: e in entries ==> e.references > 0
    }

    lemma LinkedDistinct()
      requires Linked()
      ensures Distinct(entries) && head !in entries
    {
    }

    ghost function Items(): seq<Item>
      reads this, entries
    {
      seq(|entries|, i requires 0 <= i < |entries| reads this, entries =>
        Item(entries[i], entries[i].handler, entries[i].references, entries[i].deleted))
    }

    constructor ()
      ensures Valid() && entries == [] && fresh(head)
    {
      var sentinel := new Entry(0);
      head := sentinel;
      entries := [];
    }

    method InsertHead(e: Entry)
      requires Linked() && e !in Nodes()
      modifies this`entries, Nodes()`flink, Nodes()`blink, e`flink, e`blink
      ensures Linked() && entries == [e] + old(entries)
    {
      ghost var r := Ring();
      assert r[0].flink == r[1] && r[1] in Nodes();
      e.flink := head.flink;
      e.blink := head;
      head.flink.blink := e;
      head.flink := e;
      entries := [e] + entries;
      assert Ring() == [head, e] + r[1..];
      forall i | 0 <= i < |Ring()| - 1
        ensures Ring()[i].flink == Ring()[i + 1]
      {
        if i >= 2 { assert r[i - 1] == old(Ring()[i - 1]) && old(Ring()[i - 1].flink) == r[i]; }
      }
      forall i | 0 < i < |Ring()|
        ensures Ring()[i].blink == Ring()[i - 1]
      {
        if i >= 3 { assert r[i - 1] == old(Ring()[i - 1]) && old(Ring()[i - 1].blink) == r[i - 2]; }
      }
    }

    method InsertTail(e: Entry)
      requires Linked() && e !in Nodes()
      modifies this`entries, Nodes()`flink, Nodes()`blink, e`flink, e`blink
      ensures Linked() && entries == old(entries) + [e]
    {
      ghost var r := Ring();
      ghost var n := |entries|;
      assert r[n + 1].blink == r[n] && r[n] in Nodes();
      e.flink := head;
      e.blink := head.blink;
      head.blink.flink := e;
      head.blink := e;
      entries := entries + [e];
      assert Ring() == r[..n + 1] + [e, head];
      forall i | 0 <= i < |Ring()| - 1
        ensures Ring()[i].flink == Ring()[i + 1]
      {
        if i < n { assert r[i] == old(Ring()[i]) && old(Ring()[i].flink) == r[i + 1]; }
      }
      forall i | 0 < i < |Ring()|
        ensures Ring()[i].blink == Ring()[i - 1]
      {
        if i <= n { assert r[i] == old(Ring()[i]) && old(Ring()[i].blink) == r[i - 1]; }
      }
    }

    /** The two writes that lead past the entry at index `k`, in both directions. */
    method Bypass(e: Entry, ghost k: nat, ghost r: seq<Entry>)
      requires Linked() && k < |entries| && e == entries[k] && r == Ring()
      modifies Nodes()`flink, Nodes()`blink
      ensures forall j {:trigger r[j].flink} :: 0 <= j < |r| - 1 ==> r[j].flink == r[if j == k then k + 2 else j + 1]
      ensures forall j {:trigger r[j].blink} :: 1 <= j < |r| ==> r[j].blink == r[if j == k + 2 then k else j - 1]
    {
      assert r[k + 1] == e && r[k] in Nodes() && r[k + 2] in Nodes();
      assert r[k + 1].flink == r[k + 2] && r[k + 1].blink == r[k];
      assert forall j :: 0 <= j < |r| - 1 && j != k ==> r[j] != r[k];
      assert forall j :: 1 <= j < |r| && j != k + 2 ==> r[j] != r[k + 2];
      e.blink.flink := e.flink;
      e.flink.blink := e.blink;
    }

    /** Unlinks the entry at index `k`; its own two fields keep their values. */
    method RemoveListEntry(e: Entry, ghost k: nat)
      requires Linked() && k < |entries| && e == entries[k]
      modifies this`entries, Nodes()`flink, Nodes()`blink
      ensures Linked() && entries == old(entries)[..k] + old(entries)[k + 1..]
      ensures e.flink == old(e.flink)
    {
      ghost var r := Ring();
      assert r[k + 1] == e && r[k + 1].flink == r[k + 2];
      Bypass(e, k, r);
      assert r[k + 1].flink == r[k + 2];
      entries := entries[..k] + entries[k + 1..];
      Bypassed(k, r);
    }

    /** A ring whose links lead past one entry is linked without it. */
    lemma Bypassed(k: nat, r: seq<Entry>)
      requires Distinct(entries) && head !in entries
      requires k + 2 < |r| && Ring() == r[..k + 1] + r[k + 2..]
      requires forall j {:trigger r[j].flink} :: 0 <= j < |r| - 1 ==> r[j].flink == r[if j == k then k + 2 else j + 1]
      requires forall j {:trigger r[j].blink} :: 1 <= j < |r| ==> r[j].blink == r[if j == k + 2 then k else j - 1]
      ensures Linked()
    {
      hide Distinct;
      ghost var q := Ring();
      forall i | 0 <= i < |q| - 1 ensures q[i].flink == q[i + 1] {
        assert r[if i <= k then i else i + 1].flink == q[i + 1];
      }
      forall i | 0 < i < |q| ensures q[i].blink == q[i - 1] {
        assert r[if i <= k then i else i + 1].blink == q[i - 1];
      }
    }

    /** Registers a handler; on any failure nothing is linked. */
    method Add(first: bool, handler: Option<Handler>, memory: bool, hooked: bool) returns (e: Entry?)
      requires Valid()
      modifies this`entries, Nodes()`flink, Nodes()`blink
      ensures Valid()
      ensures e == null <==> handler == None || !memory || !hooked
      ensures e == null ==> entries == old(entries)
      ensures e != null ==> fresh(e) && e.handler == handler.value && e.references == 1 && !e.deleted
      ensures e != null ==> entries == if first then [e] + old(entries) else old(entries) + [e]
      ensures e == null ==> Items() == old(Items())
      ensures e != null ==>
        var item := Item(e, handler.value, 1, false);
        Items() == if first then [item] + old(Items()) else old(Items()) + [item]
    {
      if handler == None || !memory { return null; }
      e := new Entry(handler.value);
      if !hooked { return null; }
      if first { InsertHead(e); } else { InsertTail(e); }
    }

    /** Unregisters; the entry goes at once unless calls of it are in progress. */
    method Remove(handle: Entry?) returns (found: bool, gone: Entry?)
      requires Valid()
      modifies this`entries, Nodes()`flink, Nodes()`blink, Nodes()`references, Nodes()`deleted
      ensures Valid() && Nodes() <= old(Nodes())
      ensures found <==> handle != null && handle in old(entries) && !old(handle.deleted)
      ensures gone == if found && old(handle.references) == 1 then handle else null
      ensures entries == if gone != null then Without(old(entries), gone) else old(entries)
      ensures found ==> handle.deleted && handle.references == old(handle.references) - 1
      ensures gone == null ==> forall x :: x in old(entries) ==> x.flink == old(x.flink)
      ensures forall x :: x in old(entries) && !(found && x == handle) ==>
                x.references == old(x.references) && x.deleted == old(x.deleted)
      ensures !found ==> Items() == old(Items())
      ensures found ==>
        Find(old(entries), handle, 0) < |old(Items())|
        && Items() == Unregistered(old(Items()), Find(old(entries), handle, 0))
    {
      hide Without, Unregistered, Find, Distinct;
      LinkedDistinct();
      found, gone := false, null;
      if handle == null { return; }
      assert Ring()[0].flink == Ring()[1];
      var current := head.flink;
      ghost var k := 0;
      while current != head
        invariant 0 <= k <= |entries| && current == Ring()[k + 1]
        invariant forall i :: 0 <= i < k ==> entries[i] != handle || entries[i].deleted
        decreases |entries| - k
      {
        if current == handle && !current.deleted {
          WithoutAt<Entry?>(entries, k);
          gone := Unregister(current, k);
          found := true;
          return;
        }
        assert Ring()[k + 1].flink == Ring()[k + 2];
        current := current.flink;
        k := k + 1;
      }
    }

    /** The registration's own share of the count goes; the last share takes the entry with it. */
    method Unregister(e: Entry, ghost k: nat) returns (gone: Entry?)
      requires Valid() && k < |entries| && e == entries[k]
      modifies this`entries, Nodes()`flink, Nodes()`blink, e`references, e`deleted
      ensures Valid() && Nodes() <= old(Nodes())
      ensures e.deleted && e.references == old(e.references) - 1
      ensures gone == if old(e.references) == 1 then e else null
      ensures entries == if gone != null then old(entries)[..k] + old(entries)[k + 1..] else old(entries)
      ensures gone == null ==> forall x :: x in old(entries) ==> x.flink == old(x.flink)
      ensures Items() == Unregistered(old(Items()), k)
    {
      hide Linked, Distinct, Find, Without;
      ghost var items := Items();
      LinkedDistinct();
      WithoutAt(entries, k);
      WithoutDistinct(entries, e);
      e.deleted := true;
      e.references := e.references - 1;
      ItemsButOne(items, k);
      gone := null;
      if e.references == 0 {
        TakeOut(e, k);
        gone := e;
      }
    }

    /** When one entry has changed, one item has. */
    lemma ItemsButOne(items: seq<Item>, k: nat)
      requires Linked() && k < |entries| == |items|
      requires forall i :: 0 <= i < |items| ==> items[i].entry == entries[i] && items[i].handler == entries[i].handler
      requires forall i :: 0 <= i < |items| && i != k ==>
        items[i].references == entries[i].references && items[i].deleted == entries[i].deleted
      ensures Items() == items[k := items[k].(references := entries[k].references, deleted := entries[k].deleted)]
    {
    }

    /** Unlinking takes out one item. */
    method TakeOut(e: Entry, ghost k: nat)
      requires Linked() && k < |entries| && e == entries[k]
      modifies this`entries, Nodes()`flink, Nodes()`blink
      ensures Linked() && entries == old(entries)[..k] + old(entries)[k + 1..]
      ensures Items() == old(Items())[..k] + old(Items())[k + 1..]
      ensures Nodes() <= old(Nodes())
    {
      hide Linked;
      ghost var before, items := entries, Items();
      RemoveListEntry(e, k);
      assert forall i :: 0 <= i < |entries| ==> entries[i] == before[if i < k then i else i + 1];
      assert Items() == items[..k] + items[k + 1..];
    }

    /** One call of one entry, and what the dispatcher does when it comes back. */
    method Visit(e: Entry, b: Behaviour, ghost k: nat) returns (next: Entry, ghost after: Item)
      requires Valid() && k < |entries| && e == entries[k] && !e.deleted
      modifies this`entries, Nodes()`flink, Nodes()`blink, Nodes()`references, Nodes()`deleted
      ensures Valid() && Nodes() <= old(Nodes())
      ensures after == AfterCall(old(Items()[k]), b)
      ensures Items() == old(Items()[..k]) + (if after.references == 0 then [] else [after]) + old(Items()[k + 1..])
      ensures next == Ring()[if after.references == 0 then k + 1 else k + 2]
    {
      ghost var items := Items();
      after := AfterCall(Items()[k], b);
      Call(e, b, k);
      assert Items()[..k] == items[..k] && Items()[k + 1..] == items[k + 1..];
      next := Settle(e, k);
    }

    /** The call itself: one share more while the handler runs, and perhaps the handler takes its registration back. */
    method Call(e: Entry, b: Behaviour, ghost k: nat)
      requires Valid() && k < |entries| && e == entries[k] && !e.deleted
      modifies this`entries, Nodes()`flink, Nodes()`blink, Nodes()`references, Nodes()`deleted
      ensures Valid() && entries == old(entries)
      ensures var after := AfterCall(old(Items()[k]), b);
        Items() == old(Items())[k := after.(references := after.references + 1)]
    {
      hide Without, Find;
      Hold(e, k);
      if b.removesItself {
        var found, gone := Remove(e);
      }
    }

    /** A call takes its share of the count. */
    method Hold(e: Entry, ghost k: nat)
      requires Valid() && k < |entries| && e == entries[k]
      modifies e`references
      ensures Valid() && Items() == old(Items())[k := old(Items()[k]).(references := old(e.references) + 1)]
    {
      e.references := e.references + 1;
    }

    /** The call's own share of the count goes; the last share takes the entry with it. */
    method Settle(e: Entry, ghost k: nat) returns (next: Entry)
      requires Valid() && k < |entries| && e == entries[k]
      modifies this`entries, Nodes()`flink, Nodes()`blink, e`references
      ensures Valid() && Nodes() <= old(Nodes())
      ensures Items() == Settled(old(Items()), k)
      ensures next == Ring()[if old(e.references) == 1 then k + 1 else k + 2]
    {
      hide Linked, Find, Without, Distinct, Settled;
      ghost var items := Items();
      NextInRing(k);
      LinkedDistinct();
      WithoutAt(entries, k);
      WithoutDistinct(entries, e);
      SettledIs(items, k);
      e.references := e.references - 1;
      ItemsButOne(items, k);
      next := e.flink;
      if e.references == 0 {
        TakeOut(e, k);
      }
    }

    lemma FirstInRing()
      requires Linked()
      ensures head.flink == Ring()[1] && head !in entries
    {
      assert Ring()[0].flink == Ring()[1];
    }

    lemma NextInRing(k: nat)
      requires Linked() && k < |entries|
      ensures entries[k].flink == Ring()[k + 2]
    {
      assert Ring()[k + 1].flink == Ring()[k + 2];
    }

    /** One turn of the dispatch loop, with the lists it is between. */
    method Turn(
      current: Entry, behave: Handler -> Behaviour, ghost left: seq<Item>, ghost item: Item, ghost rest: seq<Item>)
      returns (next: Entry, stop: bool, ghost left': seq<Item>)
      requires Valid() && Items() == left + [item] + rest && current == Ring()[|left| + 1]
      modifies this`entries, Nodes()`flink, Nodes()`blink, Nodes()`references, Nodes()`deleted
      ensures Valid() && Nodes() <= old(Nodes())
      ensures left' == left + Kept(item, behave) && Items() == left' + rest
      ensures next == Ring()[|left'| + 1]
      ensures stop <==> !item.deleted && behave(item.handler).disposition == ContinueExecution
    {
      assert Items()[|left|] == item && current == entries[|left|];
      if current.deleted {
        assert Ring()[|left| + 1].flink == Ring()[|left| + 2];
        return current.flink, false, left + [item];
      }
      var b := behave(current.handler);
      ghost var after: Item;
      assert Items()[..|left|] == left && Items()[|left| + 1..] == rest;
      next, after := Visit(current, b, |left|);
      stop, left' := b.disposition == ContinueExecution, left + Kept(item, behave);
    }

    /** The walk is at the head exactly when no item is left. */
    lemma Between(left: seq<Item>, rest: seq<Item>)
      requires Linked() && Items() == left + rest
      ensures |left| + 1 < |Ring()| && (Ring()[|left| + 1] == head <==> rest == [])
      ensures if rest == [] then Items() == left else Items() == left + [rest[0]] + rest[1..]
    {
      if rest != [] {
        assert Items()[|left|] == rest[0];
        assert [rest[0]] + rest[1..] == rest;
      }
    }

    /** Calls the live handlers in order until one continues execution. */
    method CallVectoredHandlers(behave: Handler -> Behaviour) returns (handled: bool, ghost out: Outcome)
      requires Valid()
      modifies this`entries, Nodes()`flink, Nodes()`blink, Nodes()`references, Nodes()`deleted
      ensures Valid()
      ensures out == Dispatched(old(Items()), behave)
      ensures handled == out.handled && Items() == out.left
    {
      hide Called, Kept, Gone, Continued, Dispatched, Distinct, Linked, Nodes;
      ghost var left: seq<Item>, rest := [], Items();
      ghost var calls: seq<Entry>, freed: seq<Entry> := [], [];
      FirstInRing();
      out := Dispatched(rest, behave);
      NothingYet(out);
      var current := head.flink;
      while current != head
        invariant Valid() && Nodes() <= old(Nodes())
        invariant Items() == left + rest && current == Ring()[|left| + 1]
        invariant out == Continued(calls, left, freed, Dispatched(rest, behave))
        decreases |rest|
      {
        Between(left, rest);
        ghost var item, tail := rest[0], rest[1..];
        Unfold(rest, behave, calls, left, freed);
        var stop: bool;
        current, stop, left := Turn(current, behave, left, item, tail);
        calls, freed, rest := calls + Called(item), freed + Gone(item, behave), tail;
        if stop {
          Stopped(calls, left, freed, rest);
          return true, out;
        }
      }
      Between(left, rest);
      AllDone(calls, left, freed, behave);
      handled := false;
    }
  }

  lemma NothingYet(out: Outcome)
    ensures Continued([], [], [], out) == out
  {
  }

  lemma Stopped(calls: seq<Entry>, left: seq<Item>, freed: seq<Entry>, rest: seq<Item>)
    ensures Continued(calls, left, freed, Outcome([], true, rest, [])).left == left + rest
    ensures Continued(calls, left, freed, Outcome([], true, rest, [])).handled
  {
  }

  lemma AllDone(calls: seq<Entry>, left: seq<Item>, freed: seq<Entry>, behave: Handler -> Behaviour)
    ensures var out := Continued(calls, left, freed, Dispatched([], behave)); out.left == left && !out.handled
  {
  }

  function Called(item: Item): seq<Entry> {
    if item.deleted then [] else [item.entry]
  }

  function Kept(item: Item, behave: Handler -> Behaviour): seq<Item> {
    if item.deleted then [item]
    else if AfterCall(item, behave(item.handler)).references == 0 then []
    else [AfterCall(item, behave(item.handler))]
  }

  function Gone(item: Item, behave: Handler -> Behaviour): seq<Entry> {
    if !item.deleted && AfterCall(item, behave(item.handler)).references == 0 then [item.entry] else []
  }

  /** One more item of the sequence is dealt with. */
  lemma Unfold(rest: seq<Item>, behave: Handler -> Behaviour, calls: seq<Entry>, left: seq<Item>, freed: seq<Entry>)
    requires rest != []
    ensures var item, tail := rest[0], rest[1..];
      Continued(calls, left, freed, Dispatched(rest, behave)) ==
      Continued(calls + Called(item), left + Kept(item, behave), freed + Gone(item, behave),
        if !item.deleted && behave(item.handler).disposition == ContinueExecution then Outcome([], true, tail, [])
        else Dispatched(tail, behave))
  {
    var item, tail := rest[0], rest[1..];
    var stops := !item.deleted && behave(item.handler).disposition == ContinueExecution;
    var next := if stops then Outcome([], true, tail, []) else Dispatched(tail, behave);
    assert Dispatched(rest, behave) == Continued(Called(item), Kept(item, behave), Gone(item, behave), next);
    Join(calls, left, freed, Called(item), Kept(item, behave), Gone(item, behave), next);
  }

  lemma Join(
    c1: seq<Entry>, l1: seq<Item>, f1: seq<Entry>, c2: seq<Entry>, l2: seq<Item>, f2: seq<Entry>, rest: Outcome)
    ensures Continued(c1, l1, f1, Continued(c2, l2, f2, rest)) == Continued(c1 + c2, l1 + l2, f1 + f2, rest)
  {
    assert c1 + (c2 + rest.calls) == (c1 + c2) + rest.calls;
    assert l1 + (l2 + rest.left) == (l1 + l2) + rest.left;
    assert f1 + (f2 + rest.freed) == (f1 + f2) + rest.freed;
  }
}
